# Verification of the PERF-04 coordinator and its companions

This project models the stateful cores of the repository in Dafny and proves what they keep and what they do.

**The load coordinator.** `Grid.dfy`, `Pool.dfy`, `Limits.dfy` and `Ledger.dfy` hold the arrival grid, the
250-task reservation pool, the concurrency caps and the accounting ledger. `Engine.dfy` gives the coordinator's
transitions as functions of its whole state. `EngineInvariant.dfy` and `EngineTick.dfy` prove what every transition
keeps; `Effects.dfy` and `Requests.dfy` prove what it does: which completion is a success and what follows from it,
which requests are given up, which requests a tick makes. `Refusals.dfy` follows the reasons for which requests are
not sent, and `EngineObject.dfy` is the coordinator as an object whose methods update it in place, each proved equal
to its transition. An exception of the program is a `fault` in the state or a `Failure` result.

**The exchange.** `Workers.dfy` is a worker's `execute`, `Verifier.dfy` the server-side write verifier, `System.dfy`
the interleaving of coordinator, workers, an unreliable wire, the server and the proof hand-off, and `Delivery.dfy`
proves the theorems over whole runs. Writes may be lost or applied after the client has given up, and replies may
never arrive.

**Evidence transport.** `Emitter.dfy` interleaves producers, sender and `close` over a fixed pool of records
and `Drain.dfy` says when the sender stops, what it leaves behind and what its counters mean; `Window.dfy` is the
bounded out-of-order receiver; `Fragments.dfy` splits and joins records.

**Snapshots and views.** `Seqlock.dfy` interleaves the optimistic reader with its writer, `FrozenVersion.dfy` is the
sharded copy-on-write version, `TreePaths.dfy` and `Kernel.dfy` are the summary receiver, `Show.dfy` the show view,
`Simulate.dfy` the virtual-time run and `Spans.dfy` the nested intervals.

Two promises turned out to need an exact condition. The global cap of 256 can answer `global_busy`, but only when
every other cap is exhausted as well (`GlobalBusyHappens`, `GlobalCapExact`). The totals of `Emitter.close` add up
only under the condition given with `ReportCloses`: reading a counter advances it, so a second report is off when the
first came back before the sender stopped (`ReportedTwice`), and a call that raises has taken a number without any
counter showing it (`RaisedCall`). After a report has closed the socket no further report comes back
(`ClosedForGood`).

## Model

| member | source | states |
|---|---|---|
| `ArrivalGrid.Build` | scripts/r3_14_perf04.py:39-53 | a timetable is built exactly when every window is non-empty and its rate divides the second; it then covers start to end without a gap, with the promised number of slots, each at the time its rate gives it, burst or not |
| `ArrivalGrid.SlotDomain` | scripts/r3_14_perf04.py:55-61 | `at` is defined exactly on 0..total, where total stands for the end of the grid |
| `ArrivalGrid.SlotTimes` | scripts/r3_14_perf04.py:55-61 | slot times strictly increase, across rate changes too |
| `ArrivalGrid.DueIsLatest` | scripts/r3_14_perf04.py:63-68 | before the end, the due slot computed by division is the last slot that has started |
| `ArrivalGrid.PollMeaning` | scripts/r3_14_perf04.py:63-76 | one poll: the cursor never moves back, a live slot satisfies at(i) <= now < at(i+1), every expired slot's successor has started, and nothing due stays behind |
| `ArrivalGrid.PollLive` | scripts/r3_14_perf04.py:63-76 | the slot whose window holds the moment is the live one, and exactly the slots from the cursor up to it expire |
| `ArrivalGrid.PollIdle` | scripts/r3_14_perf04.py:63-76 | outside every remaining window nothing is live: before the end the poll changes nothing, from the end on all the rest expires |
| `ArrivalGrid.PollPartition` | scripts/r3_14_perf04.py:63-76 | for any sequence of wake-up times, even decreasing ones, the expired ranges and live slots are cursor, cursor+1, ... up to the final cursor, each once |
| `ArrivalGrid.PollEnds` | scripts/r3_14_perf04.py:63-76 | a poll at or after the end of the grid leaves nothing unreported |
| `ArrivalGrid.Grid.PollAt` | scripts/r3_14_perf04.py:63-76 | the loop over the segments moves the cursor and answers as the poll function does |
| `ReservationPool.Fresh` | scripts/r3_14_perf04.py:116-126 | a pool exists exactly for 250 distinct paths and is then sound |
| `ReservationPool.ReserveMeaning` | scripts/r3_14_perf04.py:128-146 | `reserve` returns None exactly when no task is eligible; otherwise it takes the eligible task at the smallest cyclic distance from the cursor, and the token is current |
| `ReservationPool.ReserveAimed` | scripts/r3_14_perf04.py:128-146 | aiming the cursor at an idle task reserves that very task |
| `ReservationPool.CommandsDiffer` | scripts/r3_14_perf04.py:9-20 | no two of the twelve stages ask for the same command |
| `ReservationPool.CancelSound` | scripts/r3_14_perf04.py:160-165 | cancelling keeps every task consistent |
| `ReservationPool.FinishMeaning` | scripts/r3_14_perf04.py:167-181 | `finish` answers True exactly for the current token, touches that task only, advances it by one modulo twelve or makes it unknown, and raises exactly when a current RUN brings no new attempt |
| `ReservationPool.ResolvedOnce` | scripts/r3_14_perf04.py:148-181 | after `finish` or `cancel_unsent` has answered True for a token, every later use of it in any run answers False and changes nothing |
| `ReservationPool.UnknownAbsorbs` | scripts/r3_14_perf04.py:167-181 | no run of pool operations ever rewrites an unknown task |
| `ReservationPool.Closer` | scripts/r3_14_perf04.py:128-146 | a reserve that leaves an eligible task behind brings the stage's cursor strictly closer to it |
| `ReservationPool.BoundedWaiting` | scripts/r3_14_perf04.py:128-146 | while a task stays eligible for a stage whose cursor is not re-aimed, reserve calls for the stage plus its remaining distance never exceed its first distance, which is below 250 |
| `ReservationPool.Pool.Reserve` | scripts/r3_14_perf04.py:128-146 | the in-place scan ends in the state and token of the reserve function |
| `ReservationPool.Pool.CancelUnsent` | scripts/r3_14_perf04.py:160-165 | the in-place cancel matches the cancel function, including the answer |
| `ReservationPool.Pool.Finish` | scripts/r3_14_perf04.py:167-181 | the in-place finish matches the finish function; a raise leaves the pool as it was |
| `ConcurrencyLimits.ActiveIsSum` | scripts/r3_14_perf04_runtime.py:26-67 | the number of active requests is the pool count plus the six single-slot counts |
| `ConcurrencyLimits.ReasonMeans` | scripts/r3_14_perf04_runtime.py:34-43 | which cap refuses, the first reached: 256 in all, then 250, 16 or 1 of the channel, then 250 of the pool, then the task; none if and only if there is room everywhere |
| `ConcurrencyLimits.PeaksMean` | scripts/r3_14_perf04_runtime.py:45-67 | after any history of acquire and release, the recorded peaks are the highest levels ever reached, overall, of the pool and of each channel |
| `ConcurrencyLimits.GlobalCapExact` | scripts/r3_14_perf04_runtime.py:34-43 | `global_busy` is returned exactly when the pool is full and all six single slots are taken, and then another cap would refuse the request as well: the global cap of 256 never refuses what the other caps admit |
| `ConcurrencyLimits.GlobalBusyHappens` | scripts/r3_14_perf04_runtime.py:34-59 | 256 calls of acquire on an empty limiter, for children with different paths and the six single slots, are admitted one after the other, and every further request is then refused with `global_busy`, so the global cap does refuse |
| `ConcurrencyLimits.AdmittedTight` | scripts/r3_14_perf04_runtime.py:45-59 | admitting a request keeps counters, path set and peaks exact and within the caps |
| `ConcurrencyLimits.ReleasedTight` | scripts/r3_14_perf04_runtime.py:61-67 | releasing an active request never underflows and keeps counters and path set exact |
| `ConcurrencyLimits.Limits.Acquire` | scripts/r3_14_perf04_runtime.py:45-59 | the in-place acquire matches the acquire function: refusal, raise on a repeated identity, or admission with peaks |
| `ConcurrencyLimits.Limits.Release` | scripts/r3_14_perf04_runtime.py:61-67 | the in-place release matches the release function |
| `AccountingLedger.OfferBalanced` | scripts/r3_14_perf04_ledger.py:132-134 | an offer leaves exactly one request of its role unaccounted for |
| `AccountingLedger.DispatchBalanced` | scripts/r3_14_perf04_ledger.py:174-178 | dispatching an offered request restores the balance |
| `AccountingLedger.WithholdBalanced` | scripts/r3_14_perf04_ledger.py:180-184 | withholding an offered or dispatched request restores the balance |
| `AccountingLedger.SendBalanced` | scripts/r3_14_perf04_ledger.py:186-202 | a send moves one request of its role from dispatched to sent and keeps the balance |
| `AccountingLedger.CompleteBalanced` | scripts/r3_14_perf04_ledger.py:204-241 | a completion closes one sent request of its role and keeps the balance |
| `AccountingLedger.OwnMeans` | scripts/r3_14_perf04_ledger.py:126-130 | a row is counted in its own second, operation, stage and flow and under the role of its channel |
| `AccountingLedger.WithholdMeaning` | scripts/r3_14_perf04_ledger.py:180-184 | a refusal adds one to not_sent and one to its reason, in the cell of the row, and to nothing else |
| `AccountingLedger.SendMeaning` | scripts/r3_14_perf04_ledger.py:186-202 | a send succeeds exactly once and before the expiry; it adds one to sent, one to late exactly if it is ten milliseconds or more after the slot, in the second of the send, and nothing else |
| `AccountingLedger.CompleteMeaning` | scripts/r3_14_perf04_ledger.py:204-241 | a completion succeeds exactly after a send that is not later; it adds one to completed, one to the metric of its outcome and one to effective exactly if it was, in the second of the completion, and nothing else |
| `AccountingLedger.CountsRole` | scripts/r3_14_perf04_ledger.py:126-130 | the count of a role grows by exactly the credits of that role |
| `AccountingLedger.SnapshotCloses` | scripts/r3_14_perf04_ledger.py:243-262 | in balanced books offered = sent + not_sent + dispatched and sent = completed + sent-pending |
| `AccountingLedger.ShareExact` | scripts/r3_14_perf04_ledger.py:146-150 | the floor-division formula counts exactly the slots of one residue modulo ten in a bucket |
| `AccountingLedger.SharesAddUp` | scripts/r3_14_perf04_ledger.py:146-150 | the ten counts of a bucket add up to its length |
| `AccountingLedger.BucketIsSlots` | scripts/r3_14_perf04_ledger.py:136-172 | counting a one-second bucket by shares equals counting it slot by slot, in the totals and in all five dimensions |
| `AccountingLedger.ExpireSlotsMeaning` | scripts/r3_14_perf04_ledger.py:136-172 | offered, not_sent and expired each grow by exactly hi - lo, every other metric stays, the books stay balanced |
| `AccountingLedger.Ledger.Bump` | scripts/r3_14_perf04_ledger.py:126-130 | the in-place bump adds to the total and to the five dimensions |
| `AccountingLedger.Ledger.Dispatch` | scripts/r3_14_perf04_ledger.py:174-178 | the in-place dispatch, raising on a full buffer or a repeated identity |
| `AccountingLedger.Ledger.Withhold` | scripts/r3_14_perf04_ledger.py:180-184 | the in-place not_sent |
| `AccountingLedger.Ledger.Send` | scripts/r3_14_perf04_ledger.py:186-202 | the in-place sent, raising on a duplicate, expired or unknown send |
| `AccountingLedger.Ledger.Complete` | scripts/r3_14_perf04_ledger.py:204-241 | the in-place completed; a raise comes after the entry has been dropped |
| `AccountingLedger.Ledger.ExpiredRange` | scripts/r3_14_perf04_ledger.py:136-172 | the nested loops over one-second buckets equal counting the range slot by slot |
| `AccountingLedger.Ledger.ExpireBucket` | scripts/r3_14_perf04_ledger.py:146-162 | the loop over ten stages equals counting the bucket slot by slot |
| `EngineInvariant.PoolRoom` | scripts/r3_14_perf04_runtime.py:34-43 | while a task is idle, fewer than 250 pool requests are open |
| `EngineInvariant.RotationRoom` | scripts/r3_14_perf04_runtime.py:370-378 | while an idle task is in a rotation pipeline, a rotation slot is free |
| `EngineInvariant.NeverRefused` | scripts/r3_14_perf04_runtime.py:125-159 | the limiter refuses no request for a task that was idle when it was reserved |
| `EngineInvariant.SubmitForm` | scripts/r3_14_perf04_runtime.py:125-159 | with linked tables and a fresh identity neither the limiter nor the ledger raises; the outcome is a refusal, an open request, or a bounced one |
| `EngineInvariant.SubmitPool` | scripts/r3_14_perf04_runtime.py:161-188 | a reserved pool task is always admitted; only the dispatcher decides, and the coordinator invariant holds again |
| `EngineInvariant.SubmitPlain` | scripts/r3_14_perf04_runtime.py:125-159 | a request without a task is refused by a cap, opened or bounced, and the invariant holds again |
| `EngineInvariant.SentKeeps` | scripts/r3_14_perf04_runtime.py:224-226 | a fitting send never raises and keeps the invariant |
| `EngineInvariant.NotSentKeeps` | scripts/r3_14_perf04_runtime.py:227-230 | a not_sent gives the task back with the same stage and attempt, closes the request in requests, limiter and ledger, and keeps the invariant |
| `EngineInvariant.FailureKeeps` | scripts/r3_14_perf04_runtime.py:298-308 | a transport failure makes the task unknown, stops the run, keeps the request open and keeps the invariant |
| `EngineInvariant.AdvancePoolOk` | scripts/r3_14_perf04_runtime.py:266-280 | a proven completion never makes `finish` raise, and stored credentials follow the attempt |
| `EngineInvariant.CompletedKeeps` | scripts/r3_14_perf04_runtime.py:231-312 | a fitting completion never raises, whatever its outcome, and keeps the invariant; what it does is stated by EventEffects.CompletedMeans |
| `EngineInvariant.AcceptKeeps` | scripts/r3_14_perf04_runtime.py:190-312 | every fitting event keeps the coordinator invariant: the key sets of requests, limiter and ledger coincide, each pool request owns its own task, and nothing raised |
| `EngineTick.ExpiryKeeps` | scripts/r3_14_perf04_runtime.py:317-338 | giving a request up at its deadline keeps it in every table, makes its task unknown and counts no offer; which requests are given up is stated by EventEffects.DeadlinesMean |
| `EngineTick.GridStepGrows` | scripts/r3_14_perf04_runtime.py:346-366 | the ledger's role-W offers move exactly as far as the grid cursor |
| `EngineTick.RotateGrows` | scripts/r3_14_perf04_runtime.py:370-378 | a rotation reserves its own task, and the outcome is an open or a bounced request: no cap refuses it |
| `EngineTick.TimersGrow` | scripts/r3_14_perf04_runtime.py:379-430 | the control and query timers raise nothing and touch no open request |
| `EngineTick.ProduceGrows` | scripts/r3_14_perf04_runtime.py:346-430 | making new requests raises nothing, leaves open requests and busy tasks alone, and keeps offers and cursor in step |
| `EngineTick.VerificationGrows` | scripts/r3_14_perf04_runtime.py:432-443 | outside the measuring window a full verification adds at most one verify request and keeps the invariant |
| `EngineTick.TickKeeps` | scripts/r3_14_perf04_runtime.py:314-430 | a whole tick on fitting events: no exception, the invariant again, role-W offers equal to the cursor if they were |
| `EngineTick.StartInv` | scripts/r3_14_perf04_runtime.py:71-102 | a fresh coordinator satisfies the invariant and has offered nothing |
| `RefusalReasons.RefuseReasoned` | scripts/r3_14_perf04_ledger.py:180-184 | a refusal for an allowed reason keeps not_sent of each role equal to the sum of its reasons and counts no forbidden reason |
| `RefusalReasons.RotateReasoned` | scripts/r3_14_perf04_runtime.py:370-378 | a rotation is never counted as refused by a cap |
| `RefusalReasons.ProduceReasoned` | scripts/r3_14_perf04_runtime.py:346-430 | making new requests keeps the reasons: grid slots never meet task_busy, rotations meet no cap |
| `RefusalReasons.AcceptReasoned` | scripts/r3_14_perf04_runtime.py:190-312 | accepting an event keeps the reasons if a not_sent it brings has a reason its role may have |
| `EventEffects.CompletedMeans` | scripts/r3_14_perf04_runtime.py:231-312 | a completion is proven exactly if its outcome is a success, the proof is effective and of the task's own path, stage and attempt, and after a RUN the new identity has a password, the same generation and a new attempt; the verdict, the counters, the tables, the task, the stored identity and the stop follow from that alone |
| `EventEffects.ProvenAdvances` | scripts/r3_14_perf04_runtime.py:231-280 | after a proven success the task is idle at (stage + 1) mod 12, effective and success each grow by one and the run goes on; after anything else the task is unknown at its old stage, neither grows, unknown does, and the run is stopped |
| `EventEffects.SentMeans` | scripts/r3_14_perf04_runtime.py:224-226 | a send puts exactly its request on the wire with its time, counts it, and changes nothing else |
| `EventEffects.NotSentMeans` | scripts/r3_14_perf04_runtime.py:227-230 | a not_sent counts the reason, gives the task back at its stage and attempt, removes exactly this request from every table and does not stop the run |
| `EventEffects.InfoMeans` | scripts/r3_14_perf04_runtime.py:200-223 | a report about a call counts rpc_completed, and rpc_failed exactly if it failed; other information changes nothing |
| `EventEffects.DeadlinesMean` | scripts/r3_14_perf04_runtime.py:317-338 | the scan gives up exactly the open requests that have been on the wire for ten seconds and are no full verification: they and no others become terminal, their tasks unknown, timeout and unknown of each role grow by their number, and the run is stopped if and only if there is one or it was stopped before |
| `RequestEffects.FlowIsSecond` | scripts/r3_14_perf04_runtime.py:108-123 | the flow of a row is the second component of its path |
| `RequestEffects.LiveSlotMeans` | scripts/r3_14_perf04_runtime.py:346-366 | live slot i is offered once, as a child request of stage i mod 10 from at(i) to at(i+1): on the nearest idle task of that stage, opened or bounced as the dispatcher says; it is refused exactly if no task is idle at the stage, by the first full cap or as stage_busy |
| `RequestEffects.ExpiredCounts` | scripts/r3_14_perf04_ledger.py:136-172 | each expired slot is counted once as offered, not sent and expired, in its own second and stage, and nothing else is |
| `RequestEffects.GridStepMeans` | scripts/r3_14_perf04_runtime.py:346-366 | with slot i live, all slots from the cursor up to i have expired, i has been offered, and the cursor is behind it |
| `RequestEffects.GridStepIdle` | scripts/r3_14_perf04_runtime.py:346-366 | without a live slot nothing is requested; once the grid is over the remaining slots have expired |
| `RequestEffects.RotateMeans` | scripts/r3_14_perf04_runtime.py:370-378 | one turn for a due task: it gets its pipeline and one rotation request, which the dispatcher admits, and then the task is busy, or turns down, and then pool and requests are as before |
| `RequestEffects.RotationsMean` | scripts/r3_14_perf04_runtime.py:370-378 | every request the loop makes takes an idle task of stage 10 or 11 one step on, from now to now + 10 s or the end of the grid; afterwards no such task is left idle unless all sixteen pipelines are taken or the dispatcher has turned a request down |
| `RequestEffects.TimerSlotMeans` | scripts/r3_14_perf04_runtime.py:379-430 | a due second of a timer channel is offered once, with the operation, path, start and expiry of that channel and second; it is refused as expired, by the first cap reached or by the dispatcher, and otherwise opened |
| `RequestEffects.TimersMean` | scripts/r3_14_perf04_runtime.py:379-430 | every channel that the variant runs offers each due second of its beat once and no other second, and its timer is then past the moment |
| `RequestEffects.FirstOnBeat` | scripts/r3_14_perf04_runtime.py:102 | the timers start at the first second of their beat: 10 for batches, 60 for structure changes, 0 for queries |
| `RequestEffects.TickMeans` | scripts/r3_14_perf04_runtime.py:314-430 | a tick after its events and deadlines: a failing guard ends it, stopped or not; a stopped coordinator makes no request; otherwise the live slot, the idle rotations and the due timer seconds are offered, each once |
| `EngineObject.Engine.constructor` | scripts/r3_14_perf04_runtime.py:71-102 | the object starts in the start state of its variant: the grid is built from the variant's rates, with 27000 or 600 slots, and comes with its own pool, limiter and ledger |
| `EngineObject.Engine.Submit` | scripts/r3_14_perf04_runtime.py:125-159 | the in-place submission ends in the state of the submission function |
| `EngineObject.Engine.SubmitPoolJob` | scripts/r3_14_perf04_runtime.py:161-188 | the row of a pool job is made from the task and submitted |
| `EngineObject.Engine.Complete` | scripts/r3_14_perf04_runtime.py:231-312 | the in-place treatment of a completion ends in the state of the completion function, including a release that raises; EventEffects.CompletedMeans says what that state is |
| `EngineObject.Engine.Accept` | scripts/r3_14_perf04_runtime.py:190-312 | the in-place accept ends in the state of the accept function, for every event and state |
| `EngineObject.Engine.CheckDeadlines` | scripts/r3_14_perf04_runtime.py:317-338 | the deadline loop over the open requests equals the scan function, which EventEffects.DeadlinesMean describes |
| `EngineObject.Engine.PollGrid` | scripts/r3_14_perf04_runtime.py:346-366 | polling, counting the expired range and submitting the live slot |
| `EngineObject.Engine.RotateTasks` | scripts/r3_14_perf04_runtime.py:370-378 | the loop over the 250 tasks equals the rotation function |
| `EngineObject.Engine.RunTimer` | scripts/r3_14_perf04_runtime.py:379-430 | the while loop of one timer equals the timer function |
| `EngineObject.Engine.Advance` | scripts/r3_14_perf04_runtime.py:314-430 | the in-place tick ends in the state of the tick function |
| `EngineObject.Engine.Verification` | scripts/r3_14_perf04_runtime.py:432-443 | the in-place verification request |
| `Workers.Execute` | scripts/r3_14_perf04_roles.py:28-78 | the exact trace for every behaviour of the transport: not_sent if the job starts or first reaches the boundary too late, otherwise sent and then success, error, timeout or unknown, each exactly when the transport returns, returns a failure, runs out of time or raises; transport_failure exactly if it ends without a send for another reason |
| `Workers.FinishedIsLast` | scripts/r3_14_perf04_roles.py:28-78 | nothing can follow such a trace |
| `WriterProofs.StoreAccounted` | scripts/r3_14_perf04_verify.py:411-418 | storing keeps proof_bytes equal to the sum of the stored sizes, within both capacities |
| `WriterProofs.HandOffAccounted` | scripts/r3_14_perf04_verify.py:420-428 | handing off keeps proof_bytes equal to the sum of the stored sizes |
| `WriterProofs.VerifyAccounted` | scripts/r3_14_perf04_verify.py:306-409 | verifying a write keeps the account |
| `WriterProofs.StoreThenHandOff` | scripts/r3_14_perf04_verify.py:411-428 | a stored proof handed off to its own reservation comes back and the store is as before |
| `WriterProofs.HistoryMeans` | scripts/r3_14_perf04_verify.py:306-428 | after any history of writes, control writes and hand-offs, the stage on record is the first one plus the number of writes that passed, modulo twelve, the attempt is that of the latest RUN, and the stored proof is that of the latest write nobody has fetched |
| `WriterProofs.WriteInTurn` | scripts/r3_14_perf04_verify.py:306-418 | after any history a write passes if and only if its command is the one due by that count, it names the attempt of the latest RUN unless it is REQUEUE or RUN, its checks pass, a RUN brings an attempt, and there is room for its proof |
| `WriterProofs.FetchInTurn` | scripts/r3_14_perf04_verify.py:420-428 | after any history a hand-off succeeds if and only if an unfetched proof is there and is of the reserved stage and attempt, and returns that proof |
| `WriterProofs.WriteVerifier.constructor` | scripts/r3_14_perf04_verify.py:232-250 | task i starts at stage i / 25 with the reported attempt, no proofs and a closed account |
| `WriterProofs.WriteVerifier.StoreProof` | scripts/r3_14_perf04_verify.py:411-418 | the in-place store, with its two capacity errors |
| `WriterProofs.WriteVerifier.Verify` | scripts/r3_14_perf04_verify.py:306-409 | the in-place verification: the request's attempt must be the recorded one for stages below ten; a proof of this stage and attempt, the next stage modulo twelve, the new attempt after a RUN; nothing changes on an error |
| `WriterProofs.WriteVerifier.HandOff` | scripts/r3_14_perf04_verify.py:420-428 | the in-place hand-off; a mismatch leaves the proof in place |
| `WriterProofs.WriteVerifier.Close` | scripts/r3_14_perf04_verify.py:439-446 | closing reports what was never consumed and empties the store |
| `Exchange.ProofRoom` | scripts/r3_14_perf04_verify.py:411-418 | when a write is about to be applied fewer than 252 proofs are stored: 250 tasks and two control channels are exactly the places there are |
| `Exchange.ProofAbsent` | scripts/r3_14_perf04_verify.py:411-418 | no proof is stored yet under the path of a write that has not been applied |
| `Exchange.ServeFits` | scripts/r3_14_perf04_verify.py:306-418 | a write on its way is taken exactly when its own checks pass, a RUN names an attempt and the byte limits hold: the compared stage and attempt, the place and the room always fit |
| `Exchange.TakeProofFits` | scripts/r3_14_perf04_verify.py:420-428 | a hand-off to an applied job always succeeds and brings the proof of its own reservation |
| `Exchange.ServeMeans` | scripts/r3_14_perf04_verify.py:306-418 | a write on its way is applied exactly if its checks pass, a RUN names an attempt and the byte limits hold: then the verifier is one stage further and holds its proof; otherwise the verifier is as before |
| `Exchange.TakeProofMeans` | scripts/r3_14_perf04_verify.py:420-428 | a hand-off takes exactly the proof of its job out of the store and gives it to the job; nothing else changes |
| `Exchange.DeadlinesKeep` | scripts/r3_14_perf04_runtime.py:317-338 | deadlines keep client and verifier in agreement |
| `Exchange.NewRequestsKeep` | scripts/r3_14_perf04_runtime.py:346-430 | new requests keep client and verifier in agreement |
| `Exchange.WorkKeeps` | scripts/r3_14_perf04_roles.py:28-78 | worker progress keeps the exchange invariant |
| `Exchange.ServeKeeps` | scripts/r3_14_perf04_verify.py:306-418 | an applied or refused write keeps the exchange invariant |
| `Exchange.DropKeeps` | scripts/r3_14_perf04_verify.py:306-418 | a lost write keeps the exchange invariant |
| `Exchange.TakeProofKeeps` | scripts/r3_14_perf04_verify.py:420-428 | a hand-off keeps the exchange invariant, also one served after the worker has reported its completion |
| `Exchange.DeliverFits` | scripts/r3_14_perf04_roles.py:28-78 | every event of a worker fits the coordinator's state when it is delivered |
| `ExchangeRuns.ProvenGone` | scripts/r3_14_perf04_runtime.py:231-257 | a completion judged successful consumed the proof of exactly its own step |
| `ExchangeRuns.DeliverKeeps` | scripts/r3_14_perf04_runtime.py:190-312 | delivering any worker event keeps the exchange invariant |
| `ExchangeRuns.NextKeeps` | scripts/r3_14_perf04_runtime.py:190-430 | every step of the exchange keeps its invariant |
| `ExchangeRuns.NextReasoned` | scripts/r3_14_perf04_runtime.py:190-430 | every step of the exchange keeps the reasons of refusals: workers withhold for age only |
| `ExchangeRuns.TaskParties` | scripts/r3_14_perf04_verify.py:306-428 | an idle task's stage and attempt equal the verifier's and no proof is left; otherwise the verifier is at the same stage or exactly one ahead modulo twelve, and a stored proof is of the client's own stage and attempt |
| `ExchangeRuns.RunsAreSafe` | scripts/r3_14_perf04_runtime.py:70-430 | every state of every run from a start: nothing raised, the three tables agree, pool requests own distinct tasks, the counts close, offers equal the cursor, each not_sent has one reason and no rotation was refused by a cap, client and verifier agree task by task, proof_bytes is the exact sum and at most 252 proofs are stored |
| `ExchangeRuns.UnknownIsFinal` | scripts/r3_14_perf04_runtime.py:190-198 | in every run a task that has become unknown is never written again, so a late success changes nothing |
| `ExchangeRuns.DeliveredSuccess` | scripts/r3_14_perf04_runtime.py:231-280 | a delivered completion moves its task on exactly if the worker reports a success with the proof it was handed, and client and verifier are then at the same stage and attempt; otherwise the task is unknown and the run stopped |
| `ExchangeRuns.DeliveriesAdvance` | scripts/r3_14_perf04_runtime.py:231-280 | the same at every delivery of every run from a start |
| `ExchangeRuns.TicksMean` | scripts/r3_14_perf04_runtime.py:314-430 | in every run, making requests offers the live slot, the idle rotations and the due timer seconds, each once, and a deadline step gives up exactly the requests ten seconds on the wire |
| `ExchangeRuns.NextOnBeat` | scripts/r3_14_perf04_runtime.py:379-430 | every step keeps the timers on their beat |
| `ExchangeRuns.WireMoves` | scripts/r3_14_perf04_verify.py:306-428 | a write is sent, then applied or lost, then its proof is taken, each by a step of its own job and in this order only |
| `ExchangeRuns.WireIsFinal` | scripts/r3_14_perf04_verify.py:306-428 | in every run a lost write is never applied, and a proof that was taken is never replaced |
| `VirtualRun.AnswerHeld` | scripts/r3_14_perf04.py:210-217 | answering the earliest request never raises: its token is current and a generated attempt name is new |
| `VirtualRun.TakenHeld` | scripts/r3_14_perf04.py:218-222 | a new request keeps pending requests on different tasks and ties unique |
| `VirtualRun.Answer` | scripts/r3_14_perf04.py:210-223 | one answer removes the earliest request, lowers the remaining work by one and, when a rotation is due, starts it at now + delay |
| `VirtualRun.AnswerDue` | scripts/r3_14_perf04.py:210-223 | the answering loop ends for every delay; exactly the child requests whose time has come are answered, and everything left is later |
| `VirtualRun.SendChild` | scripts/r3_14_perf04.py:227-235 | a live slot is sent exactly when some task is eligible for its stage, as one request of that stage due at the given time |
| `VirtualClock.PollMoves` | scripts/r3_14_perf04.py:224-236 | a poll never moves the cursor back, and at the time of the next slot it moves on by one and misses nothing |
| `VirtualClock.OnePause` | scripts/r3_14_perf04.py:195-239 | for one pause from a to b, the slots missed are those whose window, up to the next slot, lies between a and b |
| `VirtualClock.LongPause` | tests/scripts/test_r3_14_perf04.py:67-73 | a pause from 59 s to 71 s misses exactly 10200 slots |
| `VirtualRun.TakeTurn` | scripts/r3_14_perf04.py:205-237 | one turn: everything due is answered and nothing else, then the poll, then the live slot is sent exactly if a task of its stage is idle |
| `VirtualRun.NeverBusy` | scripts/r3_14_perf04.py:227-235 | while every slot has been sent and nothing is pending, some task is idle at the next slot of every stage |
| `VirtualRun.PendingBound` | scripts/r3_14_perf04.py:210-235 | at most 250 child requests are pending, one for each task |
| `VirtualRun.SlowIsBusy` | tests/scripts/test_r3_14_perf04.py:58-64 | with answers after two seconds or more and no pause at most 25250 of the 27000 slots are sent |
| `VirtualRun.Simulate` | scripts/r3_14_perf04.py:195-239 | for every delay and finite pause list the run ends; its turns are the wake-ups the pauses leave, offered = 27000 = sent + expired + busy, sent = completed + pending, a request sent at t is answered at the first later turn at or after t + delay, at most 250 are pending, expired is the number of slots the pauses skip: none without a pause, for one pause those whose window lies inside it; without delay and pauses all 27000 are sent, with two seconds of delay at most 25250 |
| `EventEmitter.HeldAlone` | scripts/r3_14_observation.py:129-172 | the record a call of `emit` holds is in nobody else's hand and not queued, so packing it disturbs no one |
| `EventEmitter.ActedKeeps` | scripts/r3_14_observation.py:129-172 | every action of a producer keeps each record in one place and each number with one fate |
| `EventEmitter.SenderKeeps` | scripts/r3_14_observation.py:174-210 | every action of the sender, of closing and of reporting keeps them too, also a report on a closed socket, which raises after it has taken a number; when the sender stops is stated by EmitterDrain.StopMeans |
| `EventEmitter.RunKeeps` | scripts/r3_14_observation.py:92-253 | in every interleaving each record is in exactly one of available, ready, a hand or the batch, and each sequence number has exactly one fate |
| `EventEmitter.ReportCloses` | scripts/r3_14_observation.py:224-253 | of the reports that come back: after producers are quiet and the sender stopped, produced = emitted + drops + abandoned holds if and only if the number of raised calls is five times the number of earlier reports: for the first report, if and only if no call raised |
| `EventEmitter.ReportedTwice` | scripts/r3_14_observation.py:224-253 | a run for every capacity, without a raised call, in which a first report comes back while the sender is still alive and a second one, after it stopped, does not add up: one produced, six dropped |
| `EventEmitter.RaisedCall` | scripts/r3_14_observation.py:129-172 | a run for every positive capacity in which one call of `emit` raises and the first report does not add up: one produced, none dropped |
| `EventEmitter.ClosedForGood` | scripts/r3_14_observation.py:242-253 | once a report has closed the socket no later report of the run comes back |
| `EventEmitter.SentOnce` | scripts/r3_14_observation.py:174-210 | no sequence number is sent twice, and every packet has between 1 and 128 records |
| `EventEmitter.AbandonedFits` | scripts/r3_14_observation.py:224-253 | the abandoned records are different records of the pool |
| `EmitterDrain.StopMeans` | scripts/r3_14_observation.py:174-189 | the sender stops exactly after close has begun and with an empty queue at the head of its loop, or with records left once the drain deadline has passed; in no other step |
| `EmitterDrain.StoppedOnce` | scripts/r3_14_observation.py:174-189 | in every run a stopped sender has stopped in such a step |
| `EmitterDrain.AbandonedMeans` | scripts/r3_14_observation.py:224-253 | records are abandoned only if the drain deadline had passed or a record was published after the stop |
| `EmitterDrain.DrainStep` | scripts/r3_14_observation.py:174-210 | once close has begun every step of the sender leaves strictly less to do, and only a publication adds to it |
| `EmitterDrain.SenderAble` | scripts/r3_14_observation.py:174-210 | until it has stopped, the sender always has a next step |
| `EmitterDrain.DrainEnds` | scripts/r3_14_observation.py:174-253 | once close has begun and while nothing is published, the sender takes a bounded number of steps and is then stopped; unless the deadline had passed, the queue is then empty |
| `EmitterDrain.PublishedInOrder` | scripts/r3_14_observation.py:129-210 | in every run the records published are those handled, then those in the packet, then those waiting, in order: first in, first out |
| `EmitterDrain.DropsMean` | scripts/r3_14_observation.py:129-253 | in every run each drop counter is the number of records lost for its reason plus one for every report that came back |
| `EmitterDrain.PeakMeans` | scripts/r3_14_observation.py:129-172 | with one producer the peak is the most records it has seen in use |
| `EmitterDrain.ProducerAble` | scripts/r3_14_observation.py:129-172 | a call of `emit` never waits for another thread |
| `EmitterDrain.ShutExactly` | scripts/r3_14_observation.py:242-253 | in every run the socket is closed exactly when some close has ended after the sender stopped |
| `ReceiptWindow.AcceptMeaning` | scripts/r3_14_perf04_ledger.py:336-345 | a number is accepted exactly when it is positive, new and inside the window, and the window then shows the larger set |
| `ReceiptWindow.OrderFree` | scripts/r3_14_perf04_ledger.py:336-345 | two orders of arrival of the same numbers end in the same window |
| `ReceiptWindow.WindowCounts` | scripts/r3_14_perf04_ledger.py:329-345 | received = next - 1 + the number waiting = the number accepted, and waiting stays below the capacity |
| `ReceiptWindow.KnownMeaning` | scripts/r3_14_perf04_ledger.py:347-356 | `final(produced).known` if and only if the accepted numbers are exactly 1..produced |
| `ReceiptWindow.SequenceWindow.Accept` | scripts/r3_14_perf04_ledger.py:336-345 | the in-place accept with its draining loop; a refusal changes nothing |
| `ReceiptWindow.ObservationReceipt.Take` | scripts/mix100k01.py:1195-1218 | an event is logged exactly when it is the registered producer's, positive, new and inside the window; otherwise the first reason that applies is returned and nothing changes; it counts as reordered exactly if a smaller number is missing |
| `ReceiptWindow.ObservationReceipt.Accept` | scripts/mix100k01.py:1175-1223 | a frame is logged record by record, in order, up to the first record that cannot be taken, whose reason is returned; it succeeds if and only if it is whole and all are taken |
| `ReceiptWindow.ObservationReceipt.Finish` | scripts/mix100k01.py:1225-1266 | the receipt closes if and only if the totals are consistent, nothing was dropped or abandoned, the sender stopped and the logged numbers are 1..produced; otherwise the first objection is returned |
| `RecordFragments.StreamIsRest` | scripts/r3_14_perf04_verify.py:123-140 | the sender streams every record in order, or refuses because one is over a mebibyte |
| `RecordFragments.PieceSizes` | scripts/r3_14_perf04_verify.py:123-140 | a record is cut into as few pieces as possible, each of 1 to 6144 bytes and with its own offset, the total and the digest |
| `RecordFragments.AcceptMeans` | scripts/r3_14_perf04_verify.py:151-178 | any fragment, genuine or not, is taken exactly if it continues the record under way; a record comes out exactly when its bytes are complete, have the announced digest and can be decoded |
| `RecordFragments.NextOnly` | scripts/r3_14_perf04_verify.py:151-178 | of all genuine fragments the joiner takes exactly the next one |
| `RecordFragments.RoundTrip` | scripts/r3_14_perf04_verify.py:123-182 | feeding the fragments of all records returns exactly the records, and the final check passes |
| `RecordFragments.DisorderIsCaught` | scripts/r3_14_perf04_verify.py:143-182 | genuine fragments taken without an error are a prefix of the stream, and the final check passes if and only if they are all of it |
| `RecordFragments.RecordAssembler.Take` | scripts/r3_14_perf04_verify.py:151-178 | the in-place accept with its growing buffer, including what a raise leaves behind |
| `RecordFragments.RecordAssembler.Finish` | scripts/r3_14_perf04_verify.py:180-182 | the final check passes exactly on an empty joiner at the right ordinal |
| `OptimisticCapture.CopyKeeps` | scripts/r3_05_capture_prototype.py:447-456 | a chunk copied under an unchanged even revision is the next chunk of that revision's array |
| `OptimisticCapture.CapturesAreExact` | scripts/r3_05_capture_prototype.py:426-468 | in every interleaving an accepted copy at revision 2k is exactly the array after k rounds of the writer, covers every index, and is the array of an earlier state of the run, the one in which the reader read that revision |
| `OptimisticCapture.RevisionMeans` | scripts/r3_05_capture_prototype.py:431-437 | whenever the revision is even, the array is that of its finished rounds |
| `OptimisticCapture.TrialsBounded` | scripts/r3_05_capture_prototype.py:445-457 | each trial takes one to three attempts and succeeds at most once; when it succeeds is stated by CheckMeans |
| `OptimisticCapture.AttemptMeans` | scripts/r3_05_capture_prototype.py:445-457 | in every run a copy under way compares with the revision of the latest reading, and attempt is one more than the checks of the trial so far |
| `OptimisticCapture.CheckMeans` | scripts/r3_05_capture_prototype.py:447-457 | in every run a check accepts the copy if and only if the revision read first in this attempt is even and still current; it ends the trial if and only if it accepts or is the third check, and records the number of checks |
| `OptimisticCapture.OnlyChecksRecord` | scripts/r3_05_capture_prototype.py:445-468 | no other step changes captures, attempt counts or the trials left |
| `OptimisticCapture.NobodyWaits` | scripts/r3_05_capture_prototype.py:426-468 | neither thread ever waits for the other: until it is over, each has a next step |
| `OptimisticCapture.EmptyArrayBlocks` | scripts/r3_05_capture_prototype.py:431-437 | with an empty array the writer dies inside its first round and no later copy is accepted |
| `FrozenVersions.ShardsJoin` | scripts/r3_05_capture_prototype.py:93-96 | cutting into shards loses nothing and keeps the order |
| `FrozenVersions.FromDocumentMeaning` | scripts/r3_05_capture_prototype.py:88-107 | the index points every path at its own row, and the version says what the document says, in its order |
| `FrozenVersions.WrittenMeaning` | scripts/r3_05_capture_prototype.py:109-120 | an update reads like the folded map, keeps order and index, and carries over untouched shards |
| `FrozenVersions.UpdateRuntime` | scripts/r3_05_capture_prototype.py:109-120 | the copy-on-write loops succeed exactly on known paths and build that version |
| `FrozenVersions.ChainRefines` | scripts/r3_05_capture_prototype.py:109-124 | after any chain of updates, `record` equals the folded map for every path and untouched shards are the original ones |
| `TreePaths.ValidRender` | native/summary/src/lib.rs:79-86 | a valid path is the rendering of its segments |
| `TreePaths.PrefixIsDescendant` | native/summary/src/lib.rs:309-322 | the string-prefix test is the proper-descendant relation on segments |
| `TreePaths.ParentSegments` | native/summary/src/lib.rs:331-332 | splitting at the last slash drops exactly the last segment |
| `TreePaths.DepthIsSlashes` | native/summary/src/lib.rs:310-327 | counting slashes counts segments |
| `SummaryKernel.InScope` | native/summary/src/lib.rs:309-322 | the scope test holds exactly for the scope and its descendants |
| `SummaryKernel.ScopeFirst` | native/summary/src/lib.rs:306-371 | the first node of a view is its scope |
| `SummaryKernel.AncestorsFirst` | native/summary/src/lib.rs:331-335 | every node's whole chain of ancestors up to the scope appears before it |
| `SummaryKernel.LevelsAreSteps` | native/summary/src/lib.rs:323-330 | the level below the scope is never negative and is the number of parent steps back to it |
| `SummaryKernel.ParentImpliesScope` | native/summary/src/lib.rs:320-335 | a node whose parent is in the view is in the scope: that test is subsumed by the parent test |
| `SummaryKernel.Kernel.Prepare` | native/summary/src/lib.rs:251-295 | a page is staged exactly if it is small enough and every node checks out, is listed once and belongs to a known flow |
| `SummaryKernel.Kernel.StageValidated` | native/summary/src/lib.rs:297-304 | nodes that another decoder has validated replace what was pending, with one more fallback page |
| `SummaryKernel.Kernel.Add` | native/summary/src/lib.rs:315-357 | the string tests accept exactly a new node inside scope and depth, below a node of the view and within the budget; otherwise the first objection in the order of the tests is returned |
| `SummaryKernel.Kernel.Append` | native/summary/src/lib.rs:306-360 | the pending nodes are added in order up to the first one that is objected to, and the view is then exactly the old one with them; it stays free of duplicates and parent-first; on success the size stays the exact sum within the budget; nothing stays pending |
| `SummaryKernel.Kernel.Finish` | native/summary/src/lib.rs:362-371 | finishing fails exactly on an empty view |
| `ShowView.Parser.Walk` | src/takler/query.py:269-363 | walking succeeds exactly on a well-formed node with a new path, and the table then holds the whole subtree and nothing else new |
| `ShowView.ParseShow` | src/takler/query.py:243-370 | parsing succeeds exactly on well-formed flows; the table holds exactly the document's nodes, each below its parent, and rebuilding from it gives the document's forest of names |
| `ShowView.RebuildIsNames` | src/takler/query.py:361-370 | rebuilding a node from paths and child lists gives its tree of names back |
| `ShowView.RebuildDocument` | src/takler/query.py:361-370 | rebuilding from the roots gives the whole document's forest of names back |
| `ShowView.AncestorsMeaning` | src/takler/query.py:133-140 | the ancestors are the nodes at the proper prefixes of the path, nearest first |
| `ShowView.ParentsOf` | src/takler/query.py:133-140 | following parent links ends and lists exactly those ancestors |
| `ShowView.ResolveParameter` | src/takler/query.py:142-151 | the first of node, ancestors and document that has the name decides |
| `ShowView.LookupParameter` | src/takler/query.py:153-160 | the value of the first owner of the name; a redacted or null value hides those behind it and is not given away |
| `ShowView.InheritedParameters` | src/takler/query.py:162-179 | holds exactly the names the node does not own and some ancestor or the document has, with the text of the first |
| `ShowView.LookupsAgree` | src/takler/query.py:142-179 | for a name the node does not own, resolving is inheriting |
| `IntervalSpans.KidsFit` | scripts/run_snapshot_diagnostic.py:66-117 | with clocks that never go back, the children of a span fit into it |
| `IntervalSpans.OwnAddsUp` | scripts/run_snapshot_diagnostic.py:103-114 | the exclusive times of a tree of spans add up to the inclusive time of its root |
| `IntervalSpans.Observation.Enter` | scripts/run_snapshot_diagnostic.py:66-81 | a span is entered exactly while the three capacities allow it; otherwise the code of the capacity is noted and nothing else changes |
| `IntervalSpans.Observation.Leave` | scripts/run_snapshot_diagnostic.py:91-117 | leaving succeeds exactly for the top frame with no negative time, and credits the span around it; otherwise the frame is dropped, the counters stay and the two codes are noted |
| `IntervalSpans.Observation.Run` | scripts/run_snapshot_diagnostic.py:66-117 | whatever fails inside, and whether product code catches it and goes on or not: the counters grow by exactly the spans that were entered and by those that completed, the stack is restored, the exception escapes exactly as it should, and exactly the codes of refusals and exceptions are noted, sixteen at most |
| `IntervalSpans.CutBounded` | scripts/run_snapshot_diagnostic.py:66-81 | however a run ends, no more than the allowed number of spans and of names is ever counted |
| `IntervalSpans.CutAddsUp` | scripts/run_snapshot_diagnostic.py:103-114 | however a span ends, the exclusive times grow by exactly its own time if it was entered |
| `IntervalSpans.CleanExactly` | scripts/run_snapshot_diagnostic.py:66-117 | no code is noted if and only if no span raises and the whole tree fits the three capacities, and then every span of it is counted |
| `IntervalSpans.ToDictCloses` | scripts/run_snapshot_diagnostic.py:434-439 | if only U, V, R, G and F lie inside `to_dict` and U, V and F are leaves, U + K + rest is exactly its time |
| `IntervalSpans.MeasurementCloses` | scripts/run_snapshot_diagnostic.py:428-439 | both identities hold of every measurement on both clocks |
| `IntervalSpans.Validate` | scripts/run_snapshot_diagnostic.py:408-452 | validation passes exactly on right counts, an empty stack, no earlier failure and both identities; the codes noted are those of the wrong counts, or of the first identity that fails |
| `IntervalSpans.Observe` | scripts/run_snapshot_diagnostic.py:408-452 | a measurement passes validation if and only if it raises no exception, stays within the capacities and has the expected counts |

## Left out

- The journal: rows passed to `emit`, their order and the loss of critical rows; the counters are modelled.
- Job payloads, templates and RPC deadlines handed to the dispatcher; the dispatcher's answer is a parameter.
- The guard's own rules: `tick` takes a flag that says whether the guard passes.
- Events of a kind that `accept` does not know; stop reasons carry no outcome suffix, and `finish` of the coordinator, a plain report, is not modelled.
- The coordinator's rejection of a missing guard, and the choice of candidate paths by a random sample.
- Server state behind the write verifier (node status, limits, sentinel, parent aggregation): one flag says whether those checks pass.
- The hand-off's transport and time-outs; a hand-off is one step.
- `prefix`, `candidates`, percentiles, audits and reports.
- Queues between processes deliver each job's events in order, as the sequence check of the role queues enforces; that check itself is not modelled.
- Exceptions of `put` on an unbounded queue, thread start failures and socket errors other than the two that `_send` distinguishes.
- The emitter's record bytes: a record carries its sequence number only.
- Files, logs and retained anomaly frames of the receipt; whether the producer's report can be read is part of its input.
- JSON text, base64, UTF-8 and SHA-256: encoder, reader and digest are parameters; path strings are sequences of code units whose number is their size.
- The heap of the virtual-time run is a sorted sequence; the layout of `heapq` is not modelled.
- The array reads of the optimistic reader are atomic per chunk, as one slice of a list is.
- Old versions of the copy-on-write index are values here, so sharing of memory between versions is not visible.
- Decoding of a page into nodes, the header checked by Python, and the Python objects built for each node.
- The recursion limit of the parser, and the display fields of a node other than name, level, parent, parameters and children.
- Injected faults and failing clock reads of the interval observer.
- WriterProofs.WriteVerifier.Verify: the tests of the server's own state are one flag; the request's attempt is compared with the verifier's record of the attempt, which the source also reads from the server.
- ReservationPool.BoundedWaiting: is stated for a stage whose cursor nobody re-aims, because the rotation loop sets the cursors of stages 10 and 11.
- ExchangeRuns.RunsAreSafe: is stated for workers that report no proof but the one handed to them, for pool tasks outside the four control targets, and without a full verification inside the measuring window, which raises by design.
- EngineTick.TickKeeps: is stated for events that fit, because `accept` does raise on a made-up event; Exchange.DeliverFits shows that every worker event fits.
