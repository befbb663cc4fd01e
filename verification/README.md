# srsENB scheduling, verified

A Dafny model of the parts of srsENB that share out radio resources, and of the scripts that read them back, with
proofs of what those parts promise. The scheduler gives every transmission time interval (TTI) of 1 ms: resource block
groups (RBGs) in the downlink, resource blocks (RBs) in the uplink, control channel elements (CCEs) for control
messages. It drives the HARQ processes of the users, which live across TTIs. Around it stand the chain of PHY workers,
the ring of expected feedback, and the allocator of PUCCH resources.

The model follows the source's form. Objects whose methods update fields are classes here (`HarqProc`, `SchedUe`,
`DlMetric`, `UlMetric`, `Sched`, `PhchCommon`, `Grid`), and loops over arrays are loops over arrays. Each such method
is proved equal to a function of the old state; the lasting properties are lemmas about those functions and about runs
of them.

| files | what they hold |
|---|---|
| Tti, Modular, Vectors, Bits, Rbg | the wrapping TTI counter, arithmetic, vectors, words as bits, RBG masks |
| Harq, HarqObjects | HARQ process states and the process class |
| DlProcs, DlRuns, DlLives, DlMasks, DlExamples, UlRuns | choice of processes, downlink and uplink HARQ over whole runs, the lives of downlink blocks, and runs in which feedback goes astray |
| Queues, SchedUe | bearer queues and PDUs; one user |
| DlAllocation, DlMetric, UlAllocation, UlMetric | the two allocators, as functions and in place |
| SiWindows, Broadcast, Pdcch, Halves, Scheduler, UlScheduler | system information windows, broadcast blocks, CCEs, and whole TTIs |
| Standings, Reports, Worker, WorkerRuns | where users stand between subframes, what they report, whole subframes, any number of them in a row, and what that is to each user |
| WorkerChain, PendingAck | the semaphore chain and the feedback ring of the PHY |
| Pucch | the SR and CQI grid and its indices |
| RunLength, Usage | getOffOn.m, get01.m and get_usage.m |

In proofs about all users at once, facts are stated with the trigger `Pick(i)` and looked at for the named users only.
Users are apart because a process carries the identity of its user, its number and its direction as constants.

## Where the code is not what its words say

Each of these is modelled as the code has it.

- The downlink `allocation_is_valid` is true on overlap; its caller negates it (srsenb/src/mac/scheduler_metric.cc:139-156).
- The uplink `update_allocation` marks RBs even when it returns false (srsenb/src/mac/scheduler_metric.cc:302-312).
- The budget that limits moved retransmissions is never reduced while users are served
  (srsenb/src/mac/scheduler_metric.cc:89, 163).
- A process that is reset or unused stands at TTI 0, and nothing removes the TTI of an old transmission. An answer
  reaches its sender exactly if no process before it stands at the same TTI: one at TTI 0, or one last used a round of
  the TTI counter before (`DlRuns.AnswerReachesSenderIff`). Otherwise the first such process takes it, and the block is
  sent again although it may have arrived (`DlExamples.AstrayExample`, `DlExamples.RoundExample`). Feedback that answers
  nothing is dropped except in TTI 4 (`DlRuns.StrayFeedbackDroppedIff`).
- The oldest retransmission is tried with its old mask even if that is empty, and then counts as served
  (`DlAllocation.EmptyGrantIff`). That never happens to a new user as long as the PHY passes on only what its ring
  expects (`WorkerRuns.AnswersOnly`, `WorkerRuns.NeverRepeatsNothing`).
- The two halves of a subframe share one CCE map that is told apart by TTIs only. If workers call the scheduler in
  parallel, a half of another subframe in between clears the map, and DCIs can meet (`Halves.ApartIff`).
- A block given up at its limit can still ask for a retransmission and then gets a new transmission
  (srsenb/src/mac/scheduler_harq.cc:79-108, srsenb/src/mac/scheduler_ue.cc:493).
- A block that is sent again keeps its last answer until the next one comes, so it is repeated without any further
  answer, while a block that was sent once is not (`DlLives.SendIs`, `DlLives.NextSend`).
- A user whose uplink block is dropped because no DCI could be placed is told ACK (`UlRuns.PhichMeaning`).
- An SI window is closed one TTI late; a message is sent outside its window exactly if i*w ends in 9, which among the
  window lengths of TS 36.331 happens with 1 ms only (`SiWindows.StaysIff`), and the next message can then be sent in
  the same TTI (`SiWindows.MayCoincideIff`).
- SI messages other than SIB1 go out in subframe 9 only, so with windows of less than 9 ms some are never sent, such as
  the first one with windows of 5 ms (`SiWindows.EverSentIff`).
- The order of transmissions depends on the first subframe arriving first; the comment in the source calls anything
  else very unlikely (`WorkerChain.InOrderIff`, `WorkerChain.OutOfOrderExample`).
- The PUCCH check is `>` where `>=` is meant, so a cell can be given once too often (`Pucch.DistinctIff`).
- PDUs are taken from all bearers, while the backlog counts downlink bearers only
  (srsenb/src/mac/scheduler_ue.cc:852-856, 1125-1133).

## Model

| member | source | states |
|---|---|---|
| Scheduler.Sched.DlSched | srsenb/src/mac/scheduler.cc:756-797 | Whatever is asked for and whatever finds room on the control channel: no PRB of the carrier belongs to two of the SI, paging and RAR blocks and user grants; broadcast windows and blocks are those of the stage functions; users get the masks of the allocation function, with user tti mod n first, on the process they were given, and all other processes keep their masks; a user is sent its grant exactly if it has a mask, a DCI candidate was left over by those before it, and the block has a size; the grant carries that mask, DCI, size and the PDUs, and what is left stays on the bearers; the CCE map afterwards shows the DCIs of the blocks and of all users with a mask in addition; every user's processes take one step of `DlRuns` |
| UlScheduler.UlSched | srsenb/src/mac/scheduler.cc:800-1012 | Nothing is scheduled or changed if the random access area lies outside the carrier; otherwise users are told exactly the outcomes they wait for, every process of the TTI takes one opportunity of `UlRuns` with the MCS and size of its kind, users get the RBs of the allocation function on top of the reservations, each user that needs a DCI has one exactly if a candidate was left over by the downlink half and the users before it, exactly the users that transmit a block with a size are granted, the DCIs of the grants come after all DCIs of the downlink half, no RB is in two grants, no grant but the random access one lies outside the carrier or on a PRACH, Msg3 or PUCCH reservation, and bytes of blocks no longer in use are forgotten |
| Worker.RunSubframes | srsenb/src/phy/phch_worker.cc:400-430 | Any number of subframes in a row, across the wrap of the TTI counter, with CRC results, feedback, bearer queues, uplink demand and channels that change before each of them: in none of them a PRB, an RB or a CCE goes out twice. What happened is a history (`WorkerRuns`): every user has what was reported for it, its share is that of the allocation function for its demand, it is sent data and granted uplink blocks exactly if it has all they need, on its own groups and RBs, in the size and with the PDUs of its turn, and is told exactly what it waits for; and the blocks of each subframe are those of the windows before it |
| Standings.NewCell | srsenb/src/mac/scheduler_ue.cc:74-143 | A new cell with new users is ready for its first subframe: unused processes, no masks, empty bearers, closed windows, a clear CCE map for any TTI |
| Worker.Subframe | srsenb/src/phy/phch_worker.cc:403-430 | One worker's downlink half at reception TTI + 4 and uplink half at + 8: the state is ready for the next subframe, no PRB, RB or CCE is used twice by what goes out, and blocks, shares, turns, DCIs, grants, RBs and sizes are those of the halves, the second of which finds the CCE map that the first one left |
| Worker.FullSubframe | srsenb/src/phy/phch_worker.cc:400-430 | All that comes in and both halves together, for every user: it has what was reported; its share is what the allocation function gives to a user with these processes, masks, bytes and this channel; its processes take a step of `DlRuns`, only the process of its share gets a new mask, and its bearers keep what its grant does not carry; the uplink process of the TTI hears the CRC reports and takes an opportunity with the RBs it was given and the MCS and size of its kind |
| Worker.GrantPlacesApart | srsenb/src/mac/scheduler.cc:762-819 | DCIs of the downlink and uplink grants of one subframe share no CCE |
| Worker.DlHalf | srsenb/src/phy/phch_worker.cc:407-410 | From valid users with bounded masks the downlink half keeps its promises and leaves such users; uplink processes and channels are not touched; a user has a DCI exactly if some candidate was left over by the blocks and the users before it, and is sent data exactly if it was given a process, has a DCI and a block, with the mask of its share and the PDUs of its turn |
| Worker.UlHalf | srsenb/src/phy/phch_worker.cc:428-430 | The uplink half can always follow; of the uplink processes only those of the TTI change; users get the RBs of the allocation function for what they look like, on top of all reservations; a user is granted a block exactly if it transmits one of some size, on the RBs of its opportunity; after the downlink half of its subframe its DCIs come after those placed before |
| Reports.Hear | srsenb/src/mac/scheduler.cc:301-327 | CRC reports and feedback go to the named users in the order received; to each of them it is what its processes hear, and all others stay as they were |
| Reports.ReportIsHeard | srsenb/src/mac/scheduler.cc:301-327 | Each report about a user is heard by it, with its outcome, after those about it before; and it hears no others (`Reports.ReportsCount`) |
| Reports.TakeQueues | srsenb/src/mac/scheduler_ue.cc:224-233 | Buffer reports go to the named bearers of the named users in the order received, and nothing else changes |
| Reports.BearerHolds | srsenb/src/mac/scheduler_ue.cc:224-233 | After them a bearer holds what was last reported for it |
| Reports.BearerKeeps | srsenb/src/mac/scheduler_ue.cc:224-233 | A bearer for which nothing was reported holds what it held |
| Reports.TakeLinks | srsenb/src/mac/scheduler_ue.cc:404-441 | Reports of demand and channel go to the named users, and their processes and bearers stay as they were |
| Reports.LastLinkHolds | srsenb/src/mac/scheduler_ue.cc:404-441 | A user has the demand and channel that were last reported for it, or those it had |
| SchedUser.SchedUe.SetUlCrc | srsenb/src/mac/scheduler_ue.cc:397-402 | The CRC of what was received in a TTI goes to the uplink process of that TTI |
| WorkerRuns.LifeOf | srsenb/src/phy/phch_worker.cc:400-430 | In such a history every user has its life: what becomes of it depends on its own state and what it gets |
| WorkerRuns.ProcsRun | srsenb/src/mac/scheduler.cc:756-797 | The downlink processes of a user go through one run of `DlRuns` |
| WorkerRuns.UserStaysBounded | srsenb/src/mac/scheduler_ue.cc:493-535 | After any number of subframes no block of any user has been retransmitted more often than its limit |
| WorkerRuns.ShareForDemand | srsenb/src/mac/scheduler_metric.cc:79-192 | In every subframe of a history a user has the share that is right for the bytes and the channel last reported, its processes and its masks, on top of exactly the groups of the blocks and of the users served before it (see `DlAllocation.ServeIsRight`) |
| WorkerRuns.DemandIsMet | srsenb/src/mac/scheduler_metric.cc:174-188 | Without a retransmission, with an empty process and data for some groups a user is given that process with as many groups as the data needs, or as are left at its turn |
| WorkerRuns.NeedIs | srsenb/src/mac/scheduler_ue.cc:834-951 | A user needs groups exactly if bytes wait on its downlink bearers: those in which the fewest PRBs lie that hold the bytes, or all |
| WorkerRuns.ReportIsServed | srsenb/src/mac/scheduler_ue.cc:224-233 | From a buffer report to the share: if bytes are reported for a downlink bearer of such a user, it is given the groups of the fewest PRBs that hold all that waits, or as many as are left at its turn |
| WorkerRuns.DataIsTaken | srsenb/src/mac/scheduler_ue.cc:512-529 | The data sent to a user is on the groups of its share; in a new block it is min(size, bytes waiting), and exactly that leaves the bearers; in a repeated block nothing does |
| WorkerRuns.BlocksLive | srsenb/src/mac/scheduler_ue.cc:1038-1050 | For a new user that only answers what it was sent, at most once a subframe: what goes out next on a process goes out after the answer, and is a new block exactly if the answer was positive or the last one, or the block was older than 51 TTIs |
| WorkerRuns.RepeatedSize | srsenb/src/mac/scheduler_harq.cc:126-137 | A block that is repeated goes out to the user in the size in which its process sent it before |
| WorkerRuns.ConResWithFirst | srsenb/src/mac/scheduler_ue.cc:490-518 | A new user is sent the contention resolution PDU exactly with new blocks while nothing else went out, or everything that did was given up |
| WorkerRuns.AnswersOnly | srsenb/src/phy/phch_worker.cc:696-701 | If the PHY passes on the acknowledgments that its ring expects (`PendingAck`), the runs of the users hear only answers to what was sent, so `DlRuns.AnswerReachesSenderIff` and `DlRuns.PendingWasChosen` hold of the scheduler |
| WorkerRuns.ExpectedWasSent | srsenb/src/phy/phch_common.cc:175-189 | What the ring expects answers data that went out eight subframes before |
| WorkerRuns.NeverRepeatsNothing | srsenb/src/mac/scheduler_ue.cc:1013-1027 | A new user that only answers what it was sent never waits to repeat what went out on an empty mask, so it is never given a process without a group |
| WorkerRuns.ServedInTurn | srsenb/src/mac/scheduler_metric.cc:94-107 | Such a user that keeps data and an empty process, while some group is left, is given a group within 2n-1 subframes, and within n if the TTI counter does not wrap, whatever the other n-1 users want |
| WorkerRuns.CourseOf | srsenb/src/mac/scheduler.cc:830-1003 | Each uplink process takes its opportunities every eighth subframe and stays as it is in between, also across the wrap of the TTI counter |
| WorkerRuns.OneReportEach | srsenb/src/phy/phch_worker.cc:690-695 | If the PHY reports the CRC of exactly the blocks granted, every process hears one report for everything it sends |
| WorkerRuns.UplinkIsRun | srsenb/src/mac/scheduler.cc:830-1003 | Then each uplink process goes through one run of `UlRuns`, and its user is told and granted in every subframe what the run says |
| WorkerRuns.UplinkBlocksClose | srsenb/src/mac/scheduler.cc:836-851 | So between two new blocks of a process its user is told the outcome in each subframe of that process up to exactly one terminal one, and the first block is sent no more often than its limit |
| WorkerRuns.UplinkKeepsSize | srsenb/src/mac/scheduler_metric.cc:314-337 | All transmissions of an uplink block have the same number of RBs |
| WorkerRuns.WindowsAre | srsenb/src/mac/scheduler.cc:489-566 | From a new cell on, the windows of all messages in every subframe are those of the runs of `Broadcast` |
| WorkerRuns.MessagesOnAir | srsenb/src/mac/scheduler.cc:519-566 | And the blocks of system information in every subframe are theirs, and come first |
| WorkerRuns.Sib1OnAir | srsenb/src/mac/scheduler.cc:519-566 | In any run of a new cell with room for it, SIB1 goes out on the first groups of the carrier in subframe 5 of every even frame from its first opening on |
| DlMasks.ChosenHaveGroups | srsenb/src/mac/scheduler_metric.cc:144-192 | In a run of a user that only answers what it was sent, every process that was chosen has at least one group |
| DlMasks.NeverRepeatsNothing | srsenb/src/mac/scheduler_ue.cc:1013-1027 | So the oldest retransmission of such a user is never on an empty mask |
| DlLives.HearsAnswer | srsenb/src/mac/scheduler_ue.cc:353-372 | In runs of a user that only answers what it was sent, once each: up to its answer a process stands as it sent, and then it is what the answer makes of it |
| DlLives.RightSince | srsenb/src/mac/scheduler_ue.cc:994-1004 | From then on it stands so until it is chosen again, or its block in flight is too old and it is reset |
| DlLives.AnswerFrees | srsenb/src/mac/scheduler_ue.cc:1038-1050 | After a positive or a last answer there is a free process, this one or one before it, until this one is chosen; it is chosen for new data exactly if all processes before it are in flight |
| DlLives.AnswerKeeps | srsenb/src/mac/scheduler_ue.cc:1013-1027 | After a refusal below the limit, or without an answer, the process is not free until its block is too old; after a refusal it waits, and the process chosen for a retransmission is at least as old |
| DlLives.EarlyNotChosen | srsenb/src/mac/scheduler_ue.cc:493-506 | Nothing goes out on a process before its answer |
| DlLives.SendIs | srsenb/src/mac/scheduler_harq.cc:110-137 | What goes out on a process is a new block, with flipped indicator, its own MCS and size and count 0, exactly if none was in flight; else the same block with its MCS, size and indicator once more |
| DlLives.NextSend | srsenb/src/mac/scheduler_harq.cc:79-137 | What goes out next on a process does so after the answer, and is a new block exactly if the answer was positive or the last one, or the block too old; if the answer never came, a block that was sent once waits until it is too old |
| DlLives.FreeAtOnceIff | srsenb/src/mac/scheduler_harq.cc:118-123 | A process is free as soon as it has sent a new block exactly if its limit is 0 |
| DlLives.CountsSends | srsenb/src/mac/scheduler_ue.cc:780-794 | A process has a count of transmissions exactly if something was sent on it and it was not reset since |
| WorkerChain.ChainKeepsOrder | srsenb/src/phy/phch_common.cc:107-129 | If the first subframe is the first to arrive, in every interleaving the i-th transmission is the i-th subframe dispatched, with consecutive TTIs, and at most one worker is between its wait and its post |
| WorkerChain.InOrderIff | srsenb/src/phy/phch_common.cc:110-119 | Over all interleavings in which something was sent, transmissions are in dispatch order exactly when the first subframe was the first to arrive |
| WorkerChain.OutOfOrderExample | srsenb/src/phy/phch_common.cc:110-119 | With two workers, if the second subframe arrives first it is sent first |
| WorkerChain.NoDeadlock | srsenb/src/phy/phch_common.cc:107-129 | In every reachable orderly state with an unfinished job some job can take a step |
| WorkerChain.RunsAreBounded | srsenb/src/phy/phch_common.cc:107-129 | A run with d dispatches has at most 4*d job steps, so with `NoDeadlock` every dispatched subframe is sent in the end |
| WorkerChain.StepOrderly | srsenb/src/phy/phch_common.cc:107-129 | Every action of every thread keeps the invariant: one permission in the ring, on the semaphore of the next job, unless a job is in flight |
| WorkerChain.DispatchOrderly | srsenb/src/phy/txrx.cc:114-137 | The dispatch loop hands out consecutive TTIs modulo 10240 and semaphores modulo the number of workers |
| WorkerChain.OneInFlight | srsenb/src/phy/phch_common.cc:118-125 | Two jobs between wait and post are the same job |
| WorkerChain.RunFirstSendsFirst | srsenb/src/phy/phch_common.cc:110-119 | In every run, in turn or not, the first job to arrive is the first to transmit |
| PendingAck.RingIsExact | srsenb/src/phy/phch_worker.cc:456-474 | In any run the slots of the next eight subframes hold exactly the feedback that is due in them; nothing is lost, left over or overwritten early, however often the ring wraps |
| PendingAck.FeedbackAskedForOnce | srsenb/src/phy/phch_common.cc:175-189 | Asked in the subframe in which it is due, the answer is yes exactly once, and exactly if the grant eight subframes before (sent four before) enabled that block for that user; the CCE is that grant's |
| PendingAck.WorkEffect | srsenb/src/phy/phch_worker.cc:456-474 | One subframe records exactly the feedback to its own grants and touches two slots only |
| PendingAck.ModuloIsSpaced | srsenb/src/phy/phch_worker.cc:218-220 | A ring of more than eight slots numbered modulo its size keeps any nine consecutive subframes apart |
| PendingAck.SlotsOfCounter | srsenb/src/phy/phch_worker.cc:211-220 | Slots computed from the wrapping TTI counter are those of the unbounded clock if the ring size divides 10240 |
| PendingAck.PhchCommon.AddRnti | srsenb/src/phy/phch_common.cc:149-156 | A new user expects nothing; all others keep what they expect |
| PendingAck.PhchCommon.UeDbClear | srsenb/src/phy/phch_common.cc:131-139 | Clears one slot of every user, for both blocks, and nothing else |
| PendingAck.PhchCommon.SetAckPending | srsenb/src/phy/phch_common.cc:165-173 | Sets one block of one slot and its CCE for a known user; unknown users change nothing |
| PendingAck.PhchCommon.IsAckPending | srsenb/src/phy/phch_common.cc:175-189 | Returns what is pending and takes it away; the CCE is only given if something was pending; unknown users get no |
| PendingAck.PhchCommon.ExpectGrant | srsenb/src/phy/phch_worker.cc:462-474 | Expects feedback for exactly the enabled blocks of a grant |
| PendingAck.PhchCommon.ExpectAll | srsenb/src/phy/phch_worker.cc:459-474 | Identities in the C-RNTI range expect exactly the feedback to their grants; all others are left as they were |
| PendingAck.PhchCommon.AskAll | srsenb/src/phy/phch_worker.cc:749-755 | Answers a list of questions one after the other, each from what the ones before left |
| PendingAck.PhchCommon.WorkSubframe | srsenb/src/phy/phch_worker.cc:400-474 | One worker's use of the ring, in the worker's order and with the worker's slot numbers, is one `Work` step of the ring model for every user; for identities outside the C-RNTI range it is one without grants |
| HarqObjects.HarqProc.Reset | srsenb/src/mac/scheduler_harq.cc:67-77 | The block is inactive, acknowledged, without feedback, and the counters, MCS and size are cleared; the TTI becomes 0; new-data indicator, mask and the other block stay |
| HarqObjects.HarqProc.SetAck | srsenb/src/mac/scheduler_harq.cc:99-108 | Records the feedback and gives the block up when n_rtx + 1 reaches the limit |
| HarqObjects.HarqProc.NewTxCommon | srsenb/src/mac/scheduler_harq.cc:110-124 | A new block with flipped new-data indicator, active only if the limit is not 0 |
| HarqObjects.HarqProc.NewRetx | srsenb/src/mac/scheduler_harq.cc:126-137 | One more retransmission with the MCS and size of the first one, waiting for feedback again |
| HarqObjects.HarqProc.NewTxDl | srsenb/src/mac/scheduler_harq.cc:158-162 | A new downlink block that also records its CCE |
| HarqObjects.HarqProc.NewTxUl | srsenb/src/mac/scheduler_harq.cc:217-222 | A new uplink block: its user waits for the outcome and its size is pending |
| HarqObjects.HarqProc.HasPendingAck | srsenb/src/mac/scheduler_harq.cc:225-237 | Tells whether the user waits; an acknowledged block becomes inactive, and once inactive the user waits no longer |
| HarqObjects.HarqProc.ResetPendingData | srsenb/src/mac/scheduler_harq.cc:241-246 | Pending bytes are forgotten exactly if no block is active |
| HarqObjects.HarqProc.SetAlloc | srsenb/src/mac/scheduler_harq.cc:200-204 | New RBs, not an adaptive retransmission |
| HarqObjects.HarqProc.GetRarMcs | srsenb/src/mac/scheduler_harq.cc:260-270 | A random access MCS can be read once |
| DlProcs.PendingIsOldest | srsenb/src/mac/scheduler_ue.cc:1013-1027 | The scan finds the process whose pending retransmission is oldest, the lowest one among equals, exactly if there is any |
| DlProcs.FirstEmptyFrom | srsenb/src/mac/scheduler_ue.cc:1038-1050 | The first process with both blocks free, or none if there is none |
| DlProcs.AckTargetFrom | srsenb/src/mac/scheduler_ue.cc:357-364 | The first process whose transmission is answered in this TTI, or none |
| DlProcs.Timeouts | srsenb/src/mac/scheduler_ue.cc:994-1004 | Every process in use for more than 50 TTIs since its last transmission is reset, all others stay |
| DlRuns.RetxBounded | srsenb/src/mac/scheduler_ue.cc:493-535 | In every run with Format 1 grants, whatever feedback arrives or is lost, no block is retransmitted more often than its limit |
| DlRuns.BudgetShrinks | srsenb/src/mac/scheduler_ue.cc:994-1004 | Every TTI that a block survives uses up part of a budget of 51 TTIs per transmission |
| DlRuns.OccupancyBounded | srsenb/src/mac/scheduler.cc:746 | With the scheduler run every TTI no block keeps its process busy for 51*(max_retx+1) TTIs or more, whatever feedback arrives or is lost |
| DlRuns.TtiIsSendTime | srsenb/src/mac/scheduler_harq.cc:110-137 | Every non-zero TTI on record is that of a step that sent on that very process |
| DlRuns.SendTimesDistinct | srsenb/src/mac/scheduler_ue.cc:353-372 | In a run of at most 10240 TTIs the non-zero TTIs of a user's processes are pairwise distinct |
| DlRuns.FeedbackReachesSender | srsenb/src/mac/scheduler_ue.cc:353-372 | What feedback for any transmission of a run of at most 10240 TTIs does: if that was not in TTI 0 it updates exactly the process that sent it, or none if that one was reset or sent again since; if it was in TTI 0 it updates the first process that stands at TTI 0 |
| DlRuns.FeedbackReachesSenderIff | srsenb/src/mac/scheduler_ue.cc:353-372 | In a run of at most 10240 TTIs feedback for a transmission updates its sender exactly if the sender still stands at that TTI and, for TTI 0, no process before it stands there too |
| DlRuns.ZeroGoesToFirst | srsenb/src/mac/scheduler_ue.cc:357-364 | Feedback in TTI 4 goes to the first process at TTI 0, whether it sent then, was reset or was never used |
| DlRuns.AnswerReachesSenderIff | srsenb/src/mac/scheduler_ue.cc:353-372 | In a run of any length of a user that only answers what it was sent, four TTIs after, an answer updates the process that sent exactly if no process before it stands at the same TTI; one that does stands at TTI 0, or last sent at least 10240 TTIs before |
| DlRuns.StandsStill | srsenb/src/mac/scheduler_ue.cc:357-364 | Until its answer is heard, the process that sent still stands at that TTI with its block active and unanswered |
| DlRuns.PendingWasChosen | srsenb/src/mac/scheduler_ue.cc:1013-1027 | For such a user every process that waits for a retransmission was chosen for a transmission before, although answers can go to another process than the one that sent |
| DlRuns.UseIsInOrder | srsenb/src/mac/scheduler_ue.cc:1038-1050 | For such a user processes are taken into use from the first one on, and those not yet used are untouched by feedback |
| DlExamples.RoundExample | srsenb/src/mac/scheduler_harq.cc:110-124 | A run of such a user in which a process is sent on in the same TTI as an earlier one a round of the TTI counter before, and its answer is credited to that one |
| DlExamples.AstrayExample | srsenb/src/mac/scheduler_harq.cc:67-77 | A run of such a user from unused processes in which a retransmission goes out in TTI 0 and its feedback is credited to an earlier process that was reset: even if the block arrived it is to be sent again |
| DlRuns.StrayFeedbackDroppedIff | srsenb/src/mac/scheduler_ue.cc:357-368 | In a run of at most 10240 TTIs feedback that answers nothing sent is dropped exactly if it is not the feedback of TTI 0 or no process stands at TTI 0 (reset and unused processes do) |
| UlRuns.RunSettled | srsenb/src/mac/scheduler_harq.cc:99-137 | Between opportunities a block in flight has its CRC result, is below its limit, and its user awaits the outcome |
| UlRuns.BlockLife | srsenb/src/mac/scheduler.cc:836-851 | As long as no new block starts: the user waits exactly until the terminal PHICH, and the transmissions are counted by n_rtx and never exceed the limit (one if the limit is 0) |
| UlRuns.PhichUntilTerminal | srsenb/src/mac/scheduler.cc:845-850 | A block gets a PHICH at each opportunity up to its terminal one and at none after it |
| UlRuns.BlockClosure | srsenb/src/mac/scheduler.cc:933-958 | Between two new blocks of a process there is exactly one terminal PHICH, PHICHs come exactly up to it, and the first block was sent at most as often as its limit says |
| UlRuns.NewOnlyWhenClosed | srsenb/src/mac/scheduler_harq.cc:217-237 | A process takes new data only when its user awaits nothing any more |
| UlRuns.PreemptionIff | srsenb/src/mac/scheduler.cc:914-926 | A new block replaces one that is not closed exactly when a Msg3 grant lands on a process with a block in flight |
| UlRuns.PhichMeaning | srsenb/src/mac/scheduler.cc:946-958 | A PHICH that is not terminal is NACK; a terminal one follows a transmission or the loss of the block because no DCI could be placed, and is ACK exactly if the CRC was good or the block was lost |
| UlRuns.CourseIsRun | srsenb/src/mac/scheduler_ue.cc:397-402 | If exactly what was sent has one CRC report before the next opportunity, opportunities with the reports between them are a run |
| UlRuns.SendsIff | srsenb/src/mac/scheduler.cc:905-967 | A process sends exactly if it has RBs and something for them, and a DCI unless a random access grant stands for it; it sends its block again exactly if that is still in flight and no random access grant comes |
| UlRuns.TransmissionIs | srsenb/src/mac/scheduler_harq.cc:110-137 | A new uplink block flips the new-data indicator, has the MCS and size of its grant, and on a free process the limit of its opportunity; a repeated one keeps all of these; both are on the RBs of the opportunity |
| UlRuns.BlockKeepsSize | srsenb/src/mac/scheduler_metric.cc:314-337 | If what is repeated has as many RBs as before, all transmissions of a block have the number of RBs of the first one |
| DlAllocation.GrantsExclusive | srsenb/src/mac/scheduler_metric.cc:79-108 | Whoever comes first and whatever users want, no RBG is given to two users or taken from the blocks reserved before, every mask fits the carrier, and the map shows exactly what is taken |
| DlAllocation.ServeIsFresh | srsenb/src/mac/scheduler_metric.cc:144-192 | A granted mask (old, moved or new) names groups of the carrier only and none in use, although the overlap test is called validity |
| DlAllocation.ServeIsRight | srsenb/src/mac/scheduler_metric.cc:144-192 | In groups, not words: the oldest retransmission goes out on its old groups if none of them is taken at its turn; otherwise on as many, the lowest free ones, exactly if it had fewer than were free at the start and that many are free; otherwise new data gets the lowest free groups, as many as it needs or are free, exactly if there is an empty process, data and a free group; otherwise the user gets nothing |
| DlAllocation.TurnIsRight | srsenb/src/mac/scheduler_metric.cc:79-108 | The same of every user of a TTI, on top of exactly the groups that were reserved or went to users served before |
| DlAllocation.FreshTakes | srsenb/src/mac/scheduler_metric.cc:128-137 | After an update exactly the groups of the new mask are in use in addition |
| DlAllocation.GrantedProcess | srsenb/src/mac/scheduler_metric.cc:144-192 | A grant is for the process with the oldest retransmission or for the first empty one |
| DlAllocation.PrbsExclusive | srsenb/src/mac/scheduler_metric.cc:110-137 | A PRB addressed by one grant is addressed by no other and lies in no reserved group |
| DlAllocation.BlocksApart | srsenb/src/mac/scheduler.cc:545-558 | PRBs of the reserved blocks are addressed by no user |
| DlAllocation.EachUserOnce | srsenb/src/mac/scheduler_metric.cc:97-107 | The wrap-around iterator serves every user exactly once |
| DlAllocation.WrappedIsTurn | srsenb/src/mac/scheduler_metric.cc:98-104 | The iterator, wrapped when it is used, visits the users in turn from the priority index on |
| DlAllocation.FirstExactlyOnce | srsenb/src/mac/scheduler_metric.cc:98-100 | In n consecutive TTIs each of n users comes first exactly once |
| DlAllocation.FirstIsServed | srsenb/src/mac/scheduler_metric.cc:144-192 | Who comes first, has data and an empty process, and finds any group left is given a process, and at least one group exactly if it does not wait to repeat what went out on an empty mask |
| DlAllocation.EmptyGrantIff | srsenb/src/mac/scheduler_metric.cc:154-188 | A user is given a process without a group exactly if its oldest pending retransmission is on an empty mask |
| DlAllocation.GrantWithin | srsenb/src/mac/scheduler_metric.cc:94-107 | A user of n that keeps data and an empty process comes first within n TTIs and is then given a process, and a group exactly if it does not wait to repeat what went out on an empty mask, if the TTI counter does not wrap and something is left in each TTI |
| DlAllocation.GrantWithinWrap | srsenb/src/mac/scheduler_metric.cc:94-107 | The same within 2n-1 TTIs across a wrap of the TTI counter |
| DlAllocation.ServedIfRoom | srsenb/src/mac/scheduler_metric.cc:154-188 | A user that is served while some group is free gets a grant; its mask is empty exactly if the oldest pending retransmission is on an empty mask |
| Scheduler.ServedWithin | srsenb/src/mac/scheduler_metric.cc:94-107 | The same of the masks that `DlSched` gives in n TTIs in a row |
| Scheduler.ServedSoon | srsenb/src/mac/scheduler_metric.cc:94-107 | The same across a wrap of the TTI counter, in 2n-1 TTIs |
| Scheduler.EmptyShareIff | srsenb/src/mac/scheduler_metric.cc:154-188 | A user's share is a process without a group exactly if its oldest pending retransmission is on an empty mask |
| Scheduler.ShareIsRight | srsenb/src/mac/scheduler_metric.cc:79-192 | The same of the shares of `DlSched`: what each user gets is right on top of the blocks and of the shares of the users before it |
| Scheduler.GetsIsGranted | srsenb/src/mac/scheduler_metric.cc:194-197 | The mask a user is given names a group exactly if the allocation function grants it one |
| Rbg.MaskBit | srsenb/src/mac/scheduler_metric.cc:46-56 | Bit total-1-n of a mask is the selection of group n |
| Rbg.MaskOfSelection | srsenb/src/mac/scheduler_metric.cc:128-137 | A word below 2^total is the mask of the selection read off it, so the word and the array determine each other |
| Rbg.SelectionOfMask | srsenb/src/mac/scheduler_metric.cc:46-56 | Reading a selection off its mask gives it back |
| Rbg.PopCountMask | srsenb/src/mac/scheduler_metric.cc:58-67 | The set bits of a mask are as many as the selected groups |
| Rbg.MasksDisjoint | srsenb/src/mac/scheduler_metric.cc:139-142 | The and of two masks is 0 exactly if the selections share no group |
| Rbg.FirstFreeIsFirstFit | srsenb/src/mac/scheduler_metric.cc:110-126 | First fit takes free groups only, the lowest ones, and as many as were wanted or were free |
| Rbg.PrbCountsAdd | srsenb/src/mac/scheduler_ue.cc:1142-1157 | PRB counts add over disjoint masks |
| Rbg.StandardCarriers | srsenb/src/mac/scheduler.cc:132-135 | Carriers of 6, 15, 25, 50, 75 and 100 PRBs have 6, 8, 13, 17, 19 and 25 groups, as in Table 7.1.6.1-1 of TS 36.213 |
| Rbg.FullMaskCoversCarrier | srsenb/src/mac/scheduler_ue.cc:1142-1157 | The full mask is 2^n - 1 and covers every PRB |
| DlMetricRr.DlMetric.CalcRbgMask | srsenb/src/mac/scheduler_metric.cc:46-56 | The loop builds the mask in which bit total-1-n stands for group n |
| DlMetricRr.DlMetric.CountRbg | srsenb/src/mac/scheduler_metric.cc:58-67 | The loop counts the set bits |
| DlMetricRr.DlMetric.AllocationIsValid | srsenb/src/mac/scheduler_metric.cc:139-142 | True exactly if the mask names a group that is in use |
| Rbg.OverlapMeans | srsenb/src/mac/scheduler_metric.cc:139-142 | The word test is true exactly if some group in use is named by the mask, whatever bits the mask has above the carrier |
| DlMetricRr.DlMetric.NewAllocation | srsenb/src/mac/scheduler_metric.cc:110-126 | The mask of the first free groups, and success exactly if there are enough of them |
| DlMetricRr.DlMetric.FirstFreeBits | srsenb/src/mac/scheduler_metric.cc:110-120 | The loop selects the first free groups; nothing more is wanted exactly if there are enough of them |
| DlMetricRr.DlMetric.MoveRetx | srsenb/src/mac/scheduler_metric.cc:162-170 | As many first-free groups as the old mask had, if fewer than were available at the start and enough are free, else nothing changes |
| DlMetricRr.DlMetric.UpdateAllocation | srsenb/src/mac/scheduler_metric.cc:128-137 | The array is the selection of the old mask or the new one, and the word stays its mask |
| DlMetricRr.DlMetric.ApplyRetx | srsenb/src/mac/scheduler_metric.cc:154-170 | The old mask if it is free, else as many first-free groups if fewer than were available at the start, else nothing changes |
| DlMetricRr.DlMetric.ApplyNewTx | srsenb/src/mac/scheduler_metric.cc:178-188 | The first free groups up to the demand, unless there are none |
| DlMetricRr.DlMetric.ApplyUserAllocation | srsenb/src/mac/scheduler_metric.cc:144-192 | One user is served as the allocation function says; the process, its mask and the map change accordingly and nothing else does |
| DlMetricRr.DlMetric.ServeOne | srsenb/src/mac/scheduler_metric.cc:105-106 | Serving a user changes nothing about any other user |
| DlMetricRr.DlMetric.NewTti | srsenb/src/mac/scheduler_metric.cc:79-108 | After the user loop every user holds the grant of its turn, and array and word show exactly what is taken |
| DlMetricRr.HeldGrant | srsenb/src/mac/scheduler_metric.cc:194-197 | The process a user was given carries the mask of its grant; a user with no grant holds none |
| DlMetricRr.AllocationsExclusive | srsenb/src/mac/scheduler_metric.cc:79-192 | No group belongs to the processes of two users or to one and a reserved block, and the map shows exactly the groups that are taken |
| DlMetricRr.ServedApart | srsenb/src/mac/scheduler_metric.cc:79-192 | After all users were served the processes they were given carry the masks of the allocation function, and those share no group |
| DlMetricRr.MasksStayBounded | srsenb/src/mac/scheduler_metric.cc:144-192 | All masks of all processes stay within the carrier, so the next TTI can start |
| DlMetricRr.GivenProcess | srsenb/src/mac/scheduler_metric.cc:144-192 | A user is given its oldest retransmission or its first empty process |
| SchedUser.SchedUe.SetAckInfo | srsenb/src/mac/scheduler_ue.cc:353-372 | Feedback changes exactly the first process it answers and returns its block size, or changes nothing and returns -1 |
| SchedUser.SchedUe.ResetTimeoutDlHarq | srsenb/src/mac/scheduler_ue.cc:994-1004 | Exactly the processes in use that are older than 50 TTIs are reset |
| SchedUser.SchedUe.GetPendingDlHarq | srsenb/src/mac/scheduler_ue.cc:1007-1036 | The process object with the oldest pending retransmission, or null |
| SchedUser.SchedUe.GetEmptyDlHarq | srsenb/src/mac/scheduler_ue.cc:1038-1050 | The first process object with both blocks free, or null |
| SchedUser.SchedUe.PendingDlNewData | srsenb/src/mac/scheduler_ue.cc:849-858 | The bytes queued on downlink bearers |
| SchedUser.SchedUe.PendingDlNewDataTotal | srsenb/src/mac/scheduler_ue.cc:834-846 | The backlog plus header plus contention resolution for the first transmission; 0 exactly if nothing is queued |
| SchedUser.SchedUe.GetRequiredPrbDl | srsenb/src/mac/scheduler_ue.cc:924-951 | The PRBs that the growing search settles on, 0 if a size is negative |
| SchedUser.RequiredFailsIff | srsenb/src/mac/scheduler_ue.cc:934-950 | The search gives up with no PRBs exactly if it meets a negative size before one that is large enough |
| SchedUser.OnlyDownlink | srsenb/src/mac/scheduler_ue.cc:849-858 | What waits on uplink bearers does not count for the backlog |
| SchedUser.RequiredIsLeast | srsenb/src/mac/scheduler_ue.cc:934-950 | The PRBs found are the fewest that hold the bytes, or the whole carrier if nothing does |
| SchedUser.Format1CountPrb | srsenb/src/mac/scheduler_ue.cc:1142-1157 | The nested loops count exactly the PRBs of the carrier that the mask covers |
| SchedUser.SchedUe.AllocPdu | srsenb/src/mac/scheduler_ue.cc:1120-1140 | Bytes for one PDU come from the first bearer that has any, retransmissions first |
| SchedUser.SchedUe.PackPdus | srsenb/src/mac/scheduler_ue.cc:521-529 | The packing loop terminates and equals the packing function, also for negative sizes |
| SchedUser.SchedUe.GenerateFormat1 | srsenb/src/mac/scheduler_ue.cc:469-553 | A process with a free block 0 starts a new block of the chosen MCS and size and drains the queues into PDUs, after a contention resolution PDU if it is the first one; otherwise the same block is sent again and no queue changes |
| SchedUser.LoadConserves | srsenb/src/mac/scheduler_ue.cc:512-529 | A new block carries min(size, queued bytes), and exactly that leaves the queues; a retransmission takes nothing |
| SchedUser.ConResIff | srsenb/src/mac/scheduler_ue.cc:490-518 | A block carries the contention resolution PDU exactly if it is new and nothing was ever sent on any process |
| SchedUser.SchedUe.constructor | srsenb/src/mac/scheduler_ue.cc:77-115 | A new user: eight unused processes per direction, nothing queued, nothing allocated |
| SchedUser.SchedUe.DlBufferState | srsenb/src/mac/scheduler_ue.cc:224-233 | A report replaces what waits on one bearer; unknown bearers change nothing |
| SchedUser.SchedUe.GenerateFormat0 | srsenb/src/mac/scheduler_ue.cc:698-758 | A random access grant or a free process starts a new block, otherwise the same block is sent again with its MCS on the current RBs |
| Queues.PackDrainsInOrder | srsenb/src/mac/scheduler_ue.cc:521-529 | The loop drains the queues strictly in service order, with one PDU for each queue that gives something |
| Queues.AllocTakesFirst | srsenb/src/mac/scheduler_ue.cc:1125-1133 | One round takes min(queue, room) from the first queue that holds something |
| Queues.TakenMeaning | srsenb/src/mac/scheduler_ue.cc:1120-1140 | Draining stops at the first queue that is not emptied and moves min(room, everything) bytes |
| Queues.PdusCarryTaken | srsenb/src/mac/scheduler_ue.cc:521-529 | PDUs carry exactly what the queues give, at most one per queue |
| Queues.BytesConserved | srsenb/src/mac/scheduler_ue.cc:521-529 | PDUs carry min(block size, queued bytes), and exactly that leaves the queues |
| Queues.PackKeepsNonNegative | srsenb/src/mac/scheduler_ue.cc:1120-1140 | No queue gets negative, whatever the block size |
| Queues.PackedPdus | srsenb/src/mac/scheduler_ue.cc:521-529 | No PDU is empty, whatever the block size |
| UlAllocation.AllocatedExclusive | srsenb/src/mac/scheduler_metric.cc:219-256 | Whatever is reserved, whatever users want and whoever comes first: every RB held lies in the carrier, was not reserved and is held once |
| UlAllocation.AllocatedRight | srsenb/src/mac/scheduler_metric.cc:219-358 | What each user holds in the end: with a block in flight its old RBs exactly if they are free at its turn in the first pass; otherwise, exactly if the first usable run is long enough and its length allowed, the first RBs of that run, as many as before; without one, exactly if it has data and some run is usable at its turn in the second pass, the first RBs of the first such run, the largest allowed number not above the run and the demand |
| UlAllocation.AllocatedMarks | srsenb/src/mac/scheduler_metric.cc:219-312 | An RB is marked in the end exactly if it was reserved, is held, or was asked for by a block in flight |
| UlAllocation.FirstRunIsFirst | srsenb/src/mac/scheduler_metric.cc:275-290 | The search takes the first free run that is long enough or not cut off by a used RB below index 3, as much of it as wanted, and fails only if there is none |
| UlAllocation.AllocationFits | srsenb/src/mac/scheduler_metric.cc:271-300 | A new allocation is free, inside the carrier and of allowed length; it has the wanted length exactly if the first usable run is long enough and that length is allowed |
| UlAllocation.DftFloor | srsenb/src/mac/scheduler_metric.cc:295-298 | The shrinking loop ends at the largest allowed length not above what was found |
| UlAllocation.DftFactors | srsenb/src/mac/scheduler_metric.cc:296 | Every allowed length is a product of powers of 2, 3 and 5 |
| UlAllocation.ProductIsValid | srsenb/src/mac/scheduler_metric.cc:296 | Every product of powers of 2, 3 and 5 is an allowed length |
| UlAllocation.RetxPassExclusive | srsenb/src/mac/scheduler_metric.cc:234-242 | The retransmission pass keeps allocations apart although it marks RBs that it does not get |
| UlAllocation.NewPassExclusive | srsenb/src/mac/scheduler_metric.cc:244-255 | So does the pass for new data |
| UlAllocation.FirstExactlyOnce | srsenb/src/mac/scheduler_metric.cc:232 | In n consecutive TTIs each of n users comes first in the second pass exactly once |
| UlAllocation.FirstIsServed | srsenb/src/mac/scheduler_metric.cc:247-258 | The user that comes first in the second pass, has data and a free process, gets RBs exactly if it needs any and the retransmissions leave a usable run |
| UlAllocation.ServedWithin | srsenb/src/mac/scheduler_metric.cc:232-258 | A user of n that keeps data and free processes comes first within n TTIs and then gets RBs exactly under that condition |
| UlMetricRr.UlMetric.ResetAllocation | srsenb/src/mac/scheduler_metric.cc:213-217 | All RBs of the carrier are free |
| UlMetricRr.UlMetric.AllocationIsValid | srsenb/src/mac/scheduler_metric.cc:258-269 | True exactly if the RBs are inside the carrier and free |
| UlMetricRr.UlMetric.FirstFreeRun | srsenb/src/mac/scheduler_metric.cc:271-290 | The first loop finds the first usable run, cut to the wanted length |
| UlMetricRr.UlMetric.NewAllocation | srsenb/src/mac/scheduler_metric.cc:271-300 | The two loops find the allocation of the specification; true exactly if it is not empty and has the wanted length |
| UlMetricRr.UlMetric.UpdateAllocation | srsenb/src/mac/scheduler_metric.cc:302-312 | Marks the RBs in any case and tells whether they were free |
| UlMetricRr.UlMetric.AllocateUserRetxPrbs | srsenb/src/mac/scheduler_metric.cc:314-337 | The old RBs if they are free, otherwise as many others, otherwise none; the branch for an invalid computed allocation is never taken |
| UlMetricRr.UlMetric.AllocateUserNewtxPrbs | srsenb/src/mac/scheduler_metric.cc:339-358 | RBs for new data if the process is free; the branch for an invalid computed allocation is never taken |
| UlMetricRr.UlMetric.NewTti | srsenb/src/mac/scheduler_metric.cc:219-256 | After both passes users hold what the allocation function says, and nothing else about them changed |
| UlMetricRr.AllocationsExclusive | srsenb/src/mac/scheduler_metric.cc:219-358 | An RB of the process a user holds lies in the carrier, was not reserved, is marked, and belongs to no other user's process |
| Pdcch.SearchComplete | srsenb/src/mac/scheduler.cc:1050-1092 | From whichever candidate the search starts, it succeeds exactly if some candidate is free and does not collide with the scheduling request |
| Pdcch.PlaceOne | srsenb/src/mac/scheduler.cc:1066-1083 | Placing one more DCI keeps all DCIs apart and the map exact; a failure changes nothing |
| Pdcch.SubframeExclusive | srsenb/src/mac/scheduler.cc:762-768 | Downlink and uplink DCIs of one subframe never share a CCE, and no CCE is taken for anything else |
| Pdcch.NextIsFresh | srsenb/src/mac/scheduler.cc:813-819 | The half of a subframe that runs first finds the map cleared, and the other half never clears it |
| Pdcch.RunExclusive | srsenb/src/phy/phch_worker.cc:407-430 | The same in every run of subframes, multicast ones or not, across the wrap of the TTI counter |
| Halves.ApartIff | srsenb/src/mac/scheduler.cc:762-819 | In whatever order parallel workers call the halves of subframes: the DCIs of every subframe stay apart, whatever is asked for, exactly if every uplink half comes right after the downlink half of its subframe |
| Halves.AgainIsApart | srsenb/src/mac/scheduler.cc:762-773 | Two calls of the downlink scheduler for one TTI in a row keep their DCIs apart |
| Halves.ParallelExample | srsenb/src/mac/scheduler.cc:762-819 | With the downlink half of the next subframe between the halves of the first one, DCIs can meet |
| Scheduler.Sched.GenerateDci | srsenb/src/mac/scheduler.cc:1050-1092 | The loop returns the first candidate that fits from the random one on, marks exactly its CCEs and nothing on failure, and keeps all DCIs since the last clearing apart |
| Scheduler.Sched.FindCce | srsenb/src/mac/scheduler.cc:1056-1076 | The candidate loop terminates and equals the search |
| Scheduler.Sched.EnterDlTti | srsenb/src/mac/scheduler.cc:762-773 | The CCE map is cleared exactly if the TTI is a new one, and the whole RBG budget is free |
| Scheduler.Sched.EnterUlTti | srsenb/src/mac/scheduler.cc:813-819 | The CCE map is cleared exactly if the last TTI was not the downlink one of the same subframe |
| Scheduler.Sched.DlSchedBc | srsenb/src/mac/scheduler.cc:486-595 | Windows, budget, CCE map and blocks change as the stage functions say: SIBs in order, then paging, with one group left over |
| Scheduler.Sched.DlSchedRar | srsenb/src/mac/scheduler.cc:599-677 | Each response in its window that finds enough groups and a DCI takes a block; it may take the last group |
| Scheduler.Sched.UpdateWindows | srsenb/src/mac/scheduler.cc:489-517 | All windows are opened and closed as the window model says |
| Scheduler.Sched.DlCommon | srsenb/src/mac/scheduler.cc:756-785 | After broadcast and random access the blocks fill the carrier from below without gaps, and used plus free groups are all groups |
| Broadcast.AllBlocksGapless | srsenb/src/mac/scheduler.cc:545-558 | Blocks follow each other without gaps from group 0 to the first free one |
| Broadcast.SibsGapless | srsenb/src/mac/scheduler.cc:519-567 | Broadcast always leaves a group free |
| Broadcast.BlocksInOrder | srsenb/src/mac/scheduler.cc:656-660 | Blocks lie one above the other, below the first free group |
| Broadcast.BlockInCarrier | srsenb/src/mac/scheduler.cc:523-605 | Blocks that leave a group over end inside the carrier; a random access block may end up to P-1 PRBs above it |
| Broadcast.SibsGoOut | srsenb/src/mac/scheduler.cc:519-566 | Each message has one more block, of its length at the first free group after the messages before it, and its count grows by one, exactly if it is wanted, due, leaves a group over, finds a candidate for its DCI free, and its block is large enough; otherwise neither changes |
| Broadcast.PagingGoesOut | srsenb/src/mac/scheduler.cc:570-595 | Paging takes its block on top of those exactly if it is wanted, leaves a group over, and finds a DCI and a large enough block |
| Broadcast.RarsGoOut | srsenb/src/mac/scheduler.cc:599-677 | Each random access response takes its block exactly if it is wanted and finds groups, a DCI and a large enough block |
| Broadcast.AttemptTakesDci | srsenb/src/mac/scheduler.cc:545-566 | A DCI that finds a candidate takes exactly its CCEs, also if the block then turns out too small; otherwise none |
| Broadcast.WithoutContent | srsenb/src/mac/scheduler.cc:489-519 | A message without content keeps its window and takes no block |
| Broadcast.MessageGoesOut | srsenb/src/mac/scheduler.cc:489-566 | In every run of TTIs a message with content takes its block exactly when it is sent in its own window run, in which it is able to go out if the messages before it leave what it needs |
| Broadcast.Sib1GoesOut | srsenb/src/mac/scheduler.cc:519-566 | With a DCI and room for it in every TTI, SIB1 has the first block of the carrier in subframe 5 of every even frame from its first opening on, and none in any other TTI |
| SiWindows.StaysIff | srsenb/src/mac/scheduler.cc:489-566 | An SI message is only ever sent in its nominal window exactly if i*w does not end in 9, whatever resources are found |
| SiWindows.SentNominalIff | srsenb/src/mac/scheduler.cc:505-539 | A transmission is outside the nominal window exactly if the window should have been closed in this very TTI |
| SiWindows.OverrunExists | srsenb/src/mac/scheduler.cc:505-539 | If i*w ends in 9 there is a run with a transmission one TTI late |
| SiWindows.NominalDisjoint | srsenb/src/mac/scheduler.cc:495-502 | Nominal windows of different messages are disjoint, whatever their periods |
| SiWindows.MayCoincideIff | srsenb/src/mac/scheduler.cc:495-567 | Over all runs, two SI messages are sent in one TTI in some run exactly if their windows are neighbours and i*w of the first one ends in 9 |
| SiWindows.SentInSlot | srsenb/src/mac/scheduler.cc:505-539 | Whenever a message is sent, that is in its own slot of the shortest period, or in the first TTI of the next slot if i*w ends in 9 |
| SiWindows.SendsSpaced | srsenb/src/mac/scheduler.cc:529-539 | A message sent n times in its window is sent again only once n shares of the window have passed, unless the TTI counter wrapped since it was opened |
| SiWindows.EverSentIff | srsenb/src/mac/scheduler.cc:495-539 | An SI message is sent in some run exactly if its window, or the TTI after it, reaches a subframe 9: with windows of less than 9 ms some never are |
| SiWindows.PeriodsDivide | srsenb/src/mac/scheduler.cc:498 | Of two periods that divide 1024 the longer one is a multiple of the shorter one |
| SiWindows.AtMostFour | srsenb/src/mac/scheduler.cc:519-555 | From one opening of its window to the next, an SI message is sent at most four times |
| SiWindows.Sib1AlwaysDue | srsenb/src/mac/scheduler.cc:509-538 | Once open, SIB1 is due exactly in subframe 5 of every even frame, for ever: the limit of four never blocks it |
| SiWindows.Sib1SentIff | srsenb/src/mac/scheduler.cc:519-566 | Once it was opened, SIB1 is sent exactly in subframe 5 of every even frame in which it finds what it needs |
| SiWindows.DueIff | srsenb/src/mac/scheduler.cc:524-539 | With windows of at most 40 ms the spacing never holds a message back: called in every TTI, it is due exactly in the subframes 9 of its window until it has been sent four times |
| SiWindows.WindowSound | srsenb/src/mac/scheduler.cc:498-508 | An open window started at its nominal start and is at most one TTI too old, also across the wrap |
| Scheduler.SendGrant | srsenb/src/mac/scheduler.cc:703-742 | With a DCI the grant goes out with the load of the user's queues at that moment, without one the process is reset and the queues stay |
| Scheduler.ServeUser | srsenb/src/mac/scheduler.cc:691-746 | To the processes of a user the TTI is one step of their run (pick, DCI, grant or reset, timeout), and its bearers keep exactly what the grant does not carry |
| Scheduler.ServeTurn | srsenb/src/mac/scheduler.cc:691-746 | The turn of one user changes nothing about any other |
| Scheduler.Sched.ScheduleTurn | srsenb/src/mac/scheduler.cc:703-742 | A DCI is looked for exactly if the user was given something, then the user takes its turn with it |
| Scheduler.WhenAllocated | srsenb/src/mac/scheduler.cc:687-696 | After the allocator every user that was given something was given its oldest retransmission or its first empty process, with the mask of the allocation function |
| Scheduler.Sched.SendAll | srsenb/src/mac/scheduler.cc:691-748 | All users in the order of their identities: exactly those with a mask, a DCI and a block are listed, each with its own mask, DCI, size and PDUs; the CCE map shows the DCIs of all that asked |
| Scheduler.Sched.AllocateData | srsenb/src/mac/scheduler.cc:687-696 | Users get the masks of the allocation function; they share no group with each other or the blocks below |
| Scheduler.Sched.DlGrants | srsenb/src/mac/scheduler.cc:680-753 | Allocation and grants together: masks of the allocation function, grants for exactly those with a DCI and a block, loads and bearers of each user's turn; all masks stay within the carrier |
| Scheduler.Sched.DlSchedData | srsenb/src/mac/scheduler.cc:680-753 | The same on top of the blocks: no PRB is used twice |
| Scheduler.NextTtiCanStart | srsenb/src/mac/scheduler.cc:756-797 | Valid users with bounded masks are all that the next downlink TTI needs (used for every subframe of `Worker.RunSubframes`) |
| Scheduler.Sched.SendSib | srsenb/src/mac/scheduler.cc:519-566 | One message: sent exactly if it is due, leaves a group over, and finds a DCI and a large enough block; only then its count grows |
| Scheduler.OwnersUseOnce | srsenb/src/mac/scheduler.cc:545-705 | Blocks without gaps below and masks that share no group above use no PRB twice |
| Scheduler.BlocksNotData | srsenb/src/mac/scheduler.cc:545-705 | No PRB of a block is addressed by a user grant |
| UlScheduler.ScheduleUser | srsenb/src/mac/scheduler.cc:905-994 | The user's process takes one opportunity: Msg3 grant, new block or retransmission with a DCI, or reset without one; MCS and size are those of its kind, and the CCE map and the list of DCIs grow by exactly its DCI |
| UlScheduler.Transmit | srsenb/src/mac/scheduler.cc:945-967 | A DCI unless a random access grant stands for it, entered in the CCE map; without one the block is reset; a random access grant brings its MCS, a new block gets one for what waits, a retransmission keeps its MCS, with the size for the RBs |
| UlScheduler.Prepare | srsenb/src/mac/scheduler.cc:914-943 | A random access grant brings its RBs and MCS; a new block gets its limit, a waiting one keeps it |
| UlScheduler.Acknowledge | srsenb/src/mac/scheduler.cc:836-851 | Every user that waits is told the outcome of its block, in order, and every process is left as reported |
| UlScheduler.Reserve | srsenb/src/mac/scheduler.cc:853-901 | All reserved RBs are marked, also where reservations overlap |
| UlScheduler.MarkAllIs | srsenb/src/mac/scheduler.cc:853-901 | An RB is marked exactly if it was or some reservation holds it |
| UlScheduler.ReservedIff | srsenb/src/mac/scheduler.cc:853-901 | An RB is among the reservations exactly if it belongs to the random access area in its TTI, to the promised grant, to the control channel at either edge, or, if that is reserved user by user, to the RB of a user |
| UlScheduler.GrantsSpare | srsenb/src/mac/scheduler.cc:853-983 | So RBs that are granted, but for the answer to a random access, belong to none of these |
| UlScheduler.AllocatePusch | srsenb/src/mac/scheduler.cc:903 | Users get the RBs of the allocation function; they are apart from each other and from everything reserved |
| UlScheduler.OpenAndTell | srsenb/src/mac/scheduler.cc:813-851 | The CCE map is kept exactly within a subframe, the RB map is cleared, and every user that waits is told the outcome of its block |
| UlScheduler.GrantsAreApart | srsenb/src/mac/scheduler.cc:905-983 | Grants share no RB, also with the random access grant, and lie on no reservation |
| UlScheduler.SendAll | srsenb/src/mac/scheduler.cc:905-995 | Each user that needs a DCI has one exactly if a candidate was left over by those before it; exactly the users that transmit a block with a size are granted, each its own RBs, size and DCI, and these DCIs come after all that were placed before |
| UlScheduler.GrantAll | srsenb/src/mac/scheduler.cc:853-995 | RBs on top of the reservations and grants for all users together |
| UlScheduler.ClearPending | srsenb/src/mac/scheduler.cc:998-1003 | Bytes pending on a process without a block in use are forgotten, all others are kept |
| Pucch.Grid.FindLeast | srsenb/src/upper/rrc.cc:1847-1858 | The search finds the first least used cell, row by row |
| Pucch.MaxUsers | srsenb/src/upper/rrc.cc:1842-1845 | Users per cell times the shift are 36 with the normal cyclic prefix and 24 with the extended one |
| Pucch.Grid.constructor | srsenb/src/upper/rrc.cc:1842-1845 | An empty grid; users per cell are 12*c/delta_shift, with c = 3 for the normal cyclic prefix and 2 otherwise |
| Pucch.Grid.SrAllocate | srsenb/src/upper/rrc.cc:1840-1895 | On success one more user in a first least cell and its index and number, otherwise nothing changes; on a grid filled from empty the counts stay those of a round robin, so they differ by at most one |
| Pucch.Grid.CqiAllocate | srsenb/src/upper/rrc.cc:1916-1986 | The same for reports |
| Pucch.Grid.Free | srsenb/src/upper/rrc.cc:1821-1832 | One user fewer in the cell, never below 0 |
| Pucch.Grid.FrontIsFirstLeast | srsenb/src/upper/rrc.cc:1847-1858 | On a grid filled from empty the first least cell is the next one in turn |
| Pucch.DistinctIff | srsenb/src/upper/rrc.cc:1860-1881 | The resources of a run are pairwise distinct exactly if every cell was chosen with fewer than max_users in it or there is one PRB only (the check lets a cell be chosen with max_users) |
| Pucch.NeverMeetIff | srsenb/src/upper/rrc.cc:1870-1881 | With the one period of the cell and offsets within it, two users never send on one PUCCH number in one TTI exactly if every cell was chosen with fewer than max_users in it or there is one PRB only |
| Pucch.NumberIff | srsenb/src/upper/rrc.cc:1877-1881 | The PUCCH numbers of cells with fewer than max_users in them are all those of the rows from n_cs_an on, and no others |
| Pucch.RoundIff | srsenb/src/upper/rrc.cc:1860-1863 | The next cell has at most q users exactly during the first q+1 times around the grid |
| Pucch.NthReaches | srsenb/src/upper/rrc.cc:1847-1858 | Allocation leaves no cell out |
| Pucch.SrRoundTrip | srsenb/src/upper/rrc.cc:1865-1875 | An SR index is handed out for a period and offset exactly if the table of TS 36.213 gives them back |
| Pucch.CqiRoundTrip | srsenb/src/upper/rrc.cc:1941-1966 | The same for CQI indices, including 32, 64 and 128 ms |
| RunLength.Get01 | get01.m:4-22 | The loops write the column of the cycles, cut to size; nothing exactly if the cycles are too short |
| RunLength.PrintParse | getOffOn.m:5-24 | Printing at least three positive cycles and parsing gives back every cycle but the first and the last |
| RunLength.ParsePrint | getOffOn.m:5-24 | Parsing any 0/1 column with two falling edges gives positive times, and printing them reproduces the column between its first and last falling edge |
| RunLength.FallsComplete | getOffOn.m:12-16 | Every falling edge is found |
| RunLength.TimesAddUp | getOffOn.m:17-22 | Off times add up to the zeros, on times to the ones |
| RunLength.TimeConserved | getOffOn.m:14-22 | No idle or busy time between the first and last falling edge is lost |
| RunLength.DecodeEdges | getOffOn.m:16-20 | Edge arithmetic on the changes of positive cycles gives their times |
| Usage.DecodeMask | get_usage.m:20-41 | Decoding the mask of a selection marks PRB j exactly if the group of j is selected, on top of what was marked |
| Usage.MarkedCount | get_usage.m:37-40 | On an idle row the PRBs marked are as many as the mask covers |
| Usage.DecodeRange | get_usage.m:10-19 | A legal range marks its own PRBs and keeps other marks |
| Usage.IllegalMaskIgnored | get_usage.m:31-35 | Masks with a bit beyond the groups of the carrier change nothing |
| Usage.RangeIgnoredIff | get_usage.m:13-19 | A range changes nothing exactly if it goes beyond the PRBs of the carrier or marks what was marked |
| Usage.OtherLinkKept | get_usage.m:74-78 | An assignment changes the PRBs of its own link only |

## Left out

- Assumed of the environment: TTIs are below 10240; rings have more than eight slots and a size that divides 10240; DCI
  candidates lie within 128 CCEs; carriers have at most 100 PRBs; the SR and CQI grids have a row and a column; bearer
  queues are not negative; masks of processes that were never used name groups of the carrier.
- Link adaptation (`alloc_tbs`, `cqi_to_tbs`, `generate_format1a`, aggregation levels, code rates): block sizes and
  MCS are arbitrary functions of the user, success of a common block is an input. Byte conservation is for sizes that
  are not negative; sizes are library values in bits divided by 8, where an error code of -1 becomes 0.
- Uplink demand (`get_pending_ul_new_data`, `get_required_prb_ul`, `needs_cqi`): inputs of the uplink allocator.
- DCI Format 2 and 2A: `new_retx` is not guarded per block there, so the retransmission bound holds for Format 1 only.
- The branch for carriers of 6 PRBs that moves the first free group (srsenb/src/mac/scheduler.cc:683-685): it breaks the
  budget equation; used plus free groups are all groups here.
- Scheduler.Sched.DlSchedRar: whether a response is in its window, discarded or followed by a promised Msg3 grant is an
  input; its groups and its DCI are modelled.
- Random access: contents, several preambles in one TTI and the comparison of the window are reduced to whether a
  response is wanted; the table of promised Msg3 grants is reduced to the entry of the TTI.
- Scheduling requests that collide with a DCI candidate, PUCCH occupation per user, paging and PRACH occasions are
  inputs.
- Adaptive uplink retransmissions: `re_alloc` is never called, so processes are never adaptive here.
- `harq_proc`, `dl_harq_proc` and `ul_harq_proc` are one class `HarqProc` with the fields of both directions.
- Locks of the MAC: each call is one step. `worker_end` is interleaved action by action, but its first-transmission
  flag is read and cleared in one step, and error exits that never reach it are not modelled: the chain does not keep
  its order without that.
- Removal of users while feedback is pending, and users added in the middle of a run of the ring.
- Reconfiguration of a user during a run: its bearers and the limits of its blocks are fixed when it is added.
- Multicast scheduling; a multicast subframe only skips the downlink half (`Pdcch.RunExclusive`), and runs of whole
  subframes (`Worker.RunSubframes`) are of regular ones.
- One period for all users of the cell, as both callers pass it (srsenb/src/upper/rrc.cc:1357, 1391).
- Resource allocation type 1 in get_usage.m, and the loops over columns in getOffOn.m and get01.m, which treat one
  column like the next.
- Worker.RunSubframes: subframes follow one another; what happens if the halves of two subframes are interleaved is
  said of the control channel only (`Halves`).
- A block of no size is never granted and has no CRC report, so `WorkerRuns.UplinkIsRun` is about processes whose blocks
  all have a size; users do not come or go within a history.
- PUCCH indices after `sr_free` or `cqi_free`: the count may hand out a number still in use; runs are of
  allocations only.
- 32-bit overflow of counters and byte sums, except for the age of an SI window, which is a 32-bit difference.
- DCI fields, redundancy versions, power control, metrics, logging, S1AP, GTP-U, PDCP, RLC and RRC messages, radio and
  GUI, and the plotting and statistics scripts.
