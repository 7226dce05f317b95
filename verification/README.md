# Verified model of go-moi

The project models the parts of the MOI node that decide what is proposed, who may decide it and what
changes hands, and proves what they keep.

* **Interaction pool** (`Interactions`, `MinSeqHeap`, `AccountQueues`, `HeapQueues`, `SlotGauge`, `Pools`,
  `IxPools`, `AccountTrees`). A queue per sender and key holds waiting and promoted interactions in two heaps,
  an index by sequence id and the next expected id; the pool adds a lookup by hash and a gauge of slots.
  `AccountQueues` and `Pools` describe queues and pool as values and steps; `HeapQueues` and `IxPools` are the
  objects with their heaps and loops, proved to follow them. `AccountTrees` adds the tree of accounts a pass
  walks.
* **Proposal scheduling** (`Batches`, `Placement`, `Merging`, `Intake`, `BatchRegistry`, `Views`, `Scheduler`). A pass
  walks the promoted lists, lets leaders acquire participants, fills batches, merges small ones and selects
  up to twenty. `Batches`, `Placement` and `Merging` describe the pass and prove what it
  returns at most, and `Intake` what it takes in and returns at least;
  `BatchRegistry` and `Scheduler` are its loops over maps in any order.
* **Duplicate cache** (`DupCache`). Two pages of salted digests, as a protocol of read phases, write phases and
  rotations in any interleaving, and as the object.
* **System object** (`SystemObjects`, `SystemFamilies`, `Commits`, `TrackedObjects`, `Varints`). Validator lists
  shared copy-on-write between objects on the heap, dirty marking, commit and load.
* **Consensus decisions** (`Committees`, `Certificates`, `Prepares`, `LockEvaluation`). Committee assembly,
  counting a certificate, answering competing PREPARE messages, evaluating locks.
* **Asset ledger** (`Ledgers`, `LedgerEntries`, `AssetObjects`, `AssetEngines`). Balances, lockups, mandates and supply of one
  asset: the ledger as a value with its runs, the objects changed in place, and the engine over them.
* **Bit arrays** (`Words`, `BitArrays`). The packed form against the set of indices.

Where a map is iterated the model takes any order, so a result holds for all of them. Hashes, ranks and
digests are opaque numbers or function parameters; state lookups, access, registration, clocks and salts are
parameters.

Properties that do not hold as a reader might expect are stated with the exact condition under which they
do, and with an input where they fail:

* queues in order: `PromoteInOrderIff` and `InOrderIff`, failing at `LastIdIsLost`;
* the limit test: `TestExactIff`, failing at `IncreaseCanWrap`, and the pressure test: `PressureExactIff`,
  failing at `PressureWraps`;
* proposing in turn: `ReadyInTurnIff`, failing at `LostPositionIsOutOfTurn`;
* walking every promoted queue: `WalkedIff`, failing at `SecondKeyIsForgotten`;
* the duplicate cache: `NoRoomOverfills`, and `ResaltIsSafeIffEmpty`, failing at `ResaltForgets`;
* shared validator lists: `UpdateForEveryValidator`, failing at `FailedUpdateSplits`;
* commits: `CommitGoesThrough`, failing at `CutListPanics`, and `VisitLoadsBackIff`, failing at `LostChange`;
* quorums above two thirds: `TwoThirdsIs`, failing at `QuorumWraps`;
* votes as nodes: `VotesAreNodesIff` and `QuorumsMeetIff`, failing at `TwoNodesMakeQuorum` and
  `DisjointCertificates`;
* resets: `ResetWithHeaders` of the pool object, failing at `UnknownKeyStops`;
* locks below a certificate: `StandsIff`, failing at `StandsBelowAProposal`, and beside one of their height:
  `StandsInOrderIff`, failing at `OrderDecides` and at `LastViewCounts`;
* other tokens and debts: `OtherTokenKept`, failing at `CreditWipes`, and `StepNoDebts`, failing at
  `NegativeConsume`;
* mandates: `TakenWithinApprovedIff`, failing at `DrawnBeyondApproved`, and `StepRemaining`, failing at
  `ApprovalWipes`;
* lockups: `Lockup` of the asset engine, failing at `OtherTokenCrashes`;
* differences of bit arrays: `BitArray.Subtract`, failing at `StrayBit`.

## Model

| member | source | states |
|---|---|---|
| `Pools.ReachableStates` | ixpool/ixpool.go:347-441 | in every state of every run of add, reset, drop and hole-pruning steps from an empty pool whose steps promote no run that takes in the id 2^64 - 1: each queue's promoted ids are exactly the interval of their number that ends at the next id, waiting ids lie strictly above it, ids are distinct, the index maps exactly the queued ids to the queued interactions, the gauge is the sum of the queued slots and at most the limit, and every lookup entry is still queued |
| `Pools.InOrderIff` | ixpool/account.go:71-129 | a run from an empty pool keeps every queue in order throughout exactly if none of its steps promotes a run that takes in the id 2^64 - 1 |
| `Pools.StepKeeps` | ixpool/ixpool.go:529-638 | from any pool with that invariant, each of the four steps keeps it exactly if it promotes no run that takes in the id 2^64 - 1, and otherwise leaves a queue out of order |
| `Pools.RunKeeps` | ixpool/ixpool.go:1212-1237 | so every run of steps that fit keeps it |
| `Pools.AddKeeps` | ixpool/ixpool.go:347-441 | adding keeps it, on every path (oversized, too low, rejected, under pressure, known, underpriced, over the limit, replaced, queued, promoted), exactly if it does not complete a run that takes in the last id |
| `Pools.AcceptedIff` | ixpool/ixpool.go:358-403 | exactly when the tests and the gauge take an interaction in: not ahead of the expected id under pressure, a replacement at no lower price and with another hash, a new id not below the expected one, an unknown hash, and slots that fit once those of the replaced one are given back; the gauge is at the slots the queues need |
| `Pools.AddAcceptedIff` | ixpool/ixpool.go:347-403 | the same for adding as a whole, read off the pool before the call: size, the state's id and the outside checks come first |
| `Pools.EarlyAnswers` | ixpool/ixpool.go:347-362 | the first answers in the order of the tests, where eighty times the limit fits 64 bits: above 131072 bytes oversized, below the state's id too low, then the outside checks, then a future interaction exactly if a hundred times the gauge is above eighty times the limit and the id above the expected one |
| `Pools.LateAnswers` | ixpool/ixpool.go:365-403 | the answers after those: the hash already queued under the id, a higher price there, an id below the expected one that is not queued, slots that do not fit once those freed are given back, a hash known elsewhere, each with its own error and in that order; otherwise it is taken in |
| `Pools.AcceptedIsQueued` | ixpool/ixpool.go:397-438 | an accepted interaction stands in its queue in the place of the one with its id, and no other interaction or queue changes |
| `Pools.AcceptedIsFound` | ixpool/ixpool.go:397-438 | it is found under its hash, and of the other hashes only that of the one it replaced is forgotten |
| `Pools.AcceptedExpects` | ixpool/ixpool.go:409-438 | the queue expects the id it expected, unless that is the one taken in; then the first id from there on that is not queued |
| `Pools.RefusedChangesNothing` | ixpool/ixpool.go:347-403 | a refused one leaves the pool as it was, or with one new empty queue that expects the state's id |
| `Pools.AddOutcome` | ixpool/ixpool.go:381-407 | the three gauge adjustments of an accepted interaction add up to its slots minus those it frees, and a duplicate hash undoes them |
| `Pools.ResetQueueKeeps` | ixpool/ixpool.go:569-635 | a commit to one queue keeps the invariant exactly if the run it reaches does not take in the last id |
| `Pools.ResetFromKeeps` | ixpool/ixpool.go:546-636 | so does the loop that handles each sender once: the condition is on the pool before the call |
| `Pools.ResetRemoves` | ixpool/ixpool.go:546-635 | read off the pools before and after: for the first interaction of each sender with a queue, the queue keeps exactly its interactions from the id on that the state gives for it, or from its own id and one (modulo 2^64) where the state gives none; its expected id follows |
| `Pools.ResetSpares` | ixpool/ixpool.go:546-567 | every other queue is untouched |
| `Pools.ResetForgets` | ixpool/ixpool.go:540-617 | the hashes that leave the lookup are exactly those of the tesseract and those of what left a queue; all others lead where they led |
| `Pools.DropKeeps` | ixpool/ixpool.go:807-865 | dropping keeps the invariant |
| `Pools.DropEmpties` | ixpool/ixpool.go:807-865 | it empties the interaction's queue, forgets its hashes and restarts it at the interaction's id, exactly if there is such a queue and the state is not past that id; otherwise nothing changes |
| `Pools.PruneHolesKeeps` | ixpool/ixpool.go:1212-1237 | hole pruning keeps the invariant, in whatever order the queues are visited |
| `Pools.PruneHolesClear` | ixpool/ixpool.go:1212-1237 | every queue keeps its promoted interactions and its expected id and nothing that waits |
| `Pools.PruneHolesForget` | ixpool/ixpool.go:1212-1237 | the hashes that leave the lookup are exactly those of what waited |
| `Pools.ShrinkTwice` | ixpool/ixpool.go:569-617 | pruning in two goes forgets and gives back exactly what one go would |
| `Pools.DropTwice` | ixpool/ixpool.go:830-857 | clearing promoted and then waiting interactions gives back exactly the slots of both |
| `Pools.UnknownKeyStops` | ixpool/ixpool.go:569-577 | a sender with a queue under one key only, in a reachable pool: a commit under another key does not find its queue |
| `AccountQueues.PromoteKeeps` | ixpool/account.go:71-129 | promotion restores the order of the queue and loses and invents nothing, when the run ends before the last id |
| `AccountQueues.PromoteInOrderIff` | ixpool/account.go:71-129 | a queue whose waiting ids may go up to 2^64 - 1 is in order after promotion exactly if the run from the next id ends before 2^64 |
| `AccountQueues.LastIdIsLost` | ixpool/account.go:71-129 | the shortest failing run: the id 2^64 - 1 alone, and expected |
| `AccountQueues.AdmitKeeps` | ixpool/account.go:36-64 | enqueueing and promoting swap at most one interaction and keep all others; they restore the invariant exactly if they complete no run that takes in the last id |
| `AccountQueues.ResetKeeps` | ixpool/ixpool.go:577-635 | what a commit prunes, and that it keeps the queue's invariant exactly if the run it reaches ends before the last id |
| `AccountQueues.ResetLeavesTheRest` | ixpool/ixpool.go:577-635 | and leaves exactly the interactions from the committed id on, expecting an id no lower than before and no lower than that |
| `AccountQueues.ResetTwice` | ixpool/ixpool.go:577-635 | hearing of the same commit again changes nothing |
| `AccountQueues.UnholedKeeps` | ixpool/ixpool.go:1218-1232 | hole pruning leaves exactly the promoted interactions |
| `AccountQueues.ValidIsInOrder` | ixpool/account.go:36-109 | the queue invariant in the words above: interval, strictly above, distinct, index exact |
| `MinSeqHeap.RootIsLeast` | ixpool/queue.go:104-122 | no element of a heap has a lower id than its root |
| `MinSeqHeap.Push` | ixpool/queue.go:124-131 | pushing gives a heap of the old elements and the new one |
| `MinSeqHeap.Pop` | ixpool/queue.go:133-144 | popping returns a least element and leaves a heap of the others |
| `HeapQueues.Prune` | ixpool/queue.go:38-51 | pruning takes out exactly the interactions below the id |
| `HeapQueues.MoveRun` | ixpool/account.go:71-129 | the promotion loop moves exactly the run of consecutive ids that starts at the next one, in order, with a counter that wraps at 2^64 |
| `HeapQueues.AccountQueue.Enqueue` | ixpool/account.go:36-64 | the heaps, the index and the reported place follow the queue model |
| `HeapQueues.AccountQueue.Promote` | ixpool/account.go:71-129 | so do promotion, its count and the list of what moved, also where the counter wraps and is not stored |
| `HeapQueues.AccountQueue.PrunePromoted` | ixpool/ixpool.go:577-579 | drops the committed part of the promoted heap and of the index, and returns exactly that |
| `HeapQueues.AccountQueue.PruneEnqueued` | ixpool/ixpool.go:612-614 | the same for the waiting heap |
| `HeapQueues.AccountQueue.Restart` | ixpool/ixpool.go:629-635 | moves the expected id and promotes from there |
| `HeapQueues.AccountQueue.ClearEnqueued` | ixpool/ixpool.go:1230-1232 | empties the waiting heap and its part of the index |
| `HeapQueues.AccountQueue.DropAll` | ixpool/ixpool.go:837-856 | empties both heaps and the index and restarts at the given id |
| `SlotGauge.SlotsRequired` | ixpool/slot.go:54-70 | the loop gives the sum of the slots modulo 2^64 |
| `SlotGauge.SlotsHold` | ixpool/slot.go:54-70 | an interaction needs the least number of slots of 1024 bytes that hold it |
| `SlotGauge.DecreaseExact` | ixpool/slot.go:29-31 | the complement trick subtracts exactly if and only if it does not borrow |
| `SlotGauge.SwapExact` | ixpool/slot.go:39-52 | a replacement changes the gauge by the difference in slots, within the limit, and undoing it restores the gauge |
| `SlotGauge.TestExactIff` | ixpool/slot.go:39-52 | for every limit below 2^64: the limit test is exact at every height and for every interaction of admissible size exactly if the limit leaves room for the largest one below 2^64 |
| `SlotGauge.IncreaseCanWrap` | ixpool/slot.go:39-52 | with the largest limit there is, a wrapped sum passes the test |
| `SlotGauge.PressureExactIff` | ixpool/slot.go:33-35 | for every limit: the pressure test says that a hundred times the gauge is above eighty times the limit, at every height, exactly if eighty times the limit is below 2^64 |
| `SlotGauge.PressureWraps` | ixpool/slot.go:33-35 | the least limit whose product wraps: one slot in use is high pressure |
| `IxPools.IxPool.AddIx` | ixpool/ixpool.go:347-441 | the object's queues, lookup and gauge follow the pool model on every path, with the same error; the pool stays valid exactly if no run to the last id is completed |
| `IxPools.IxPool.GetOrCreateQueue` | ixpool/ixpool.go:302-341 | finds the queue or creates an empty one at the state's id |
| `IxPools.IxPool.ResetWithHeaders` | ixpool/ixpool.go:529-638 | goes through exactly if the first interaction of every sender with an account names a queue that is there; then follows the pool model, and stays valid exactly if the commits reach no run to the last id |
| `IxPools.IxPool.Drop` | ixpool/ixpool.go:807-865 | follows the pool model |
| `IxPools.IxPool.RemoveSequenceIdHoles` | ixpool/ixpool.go:1212-1237 | follows the pool model over some order of all queues |
| `IxPools.IxPool.Forget` | ixpool/lookup_map.go:39-46 | takes exactly the given hashes off the lookup and their slots off the gauge |
| `AccountTrees.WalkedIff` | ixpool/ixpool.go:503-510 | over every run, every queue with promoted interactions belongs to an account in the tree throughout exactly if no commit takes a sender out of the tree while another of its keys has promoted interactions |
| `AccountTrees.StepWalks` | ixpool/ixpool.go:577-635 | the same for one step; adding, dropping and hole pruning always keep it |
| `AccountTrees.ResetQueueWalks` | ixpool/ixpool.go:577-635 | a commit leaves an account walked exactly if it does not empty a promoted queue without restarting it while another key needs the account |
| `AccountTrees.PassSeesAll` | ixpool/ixpool.go:738-747 | a pass over the accounts in the tree takes every promoted interaction into account exactly if every promoted queue is walked |
| `AccountTrees.TreeMovesWithQueues` | ixpool/ixpool.go:503-635 | an account enters the tree only with an interaction of its own that is newly promoted, and leaves it only with a commit that empties one of its promoted queues |
| `AccountTrees.SecondKeyIsForgotten` | ixpool/ixpool.go:594-598 | a run from an empty pool: one sender adds one interaction under each of two keys, both are promoted and walked, and after a commit of the first the second is no longer walked |
| `Batches.AcquireKeeps` | ixpool/ixpool.go:655-722 | binding the participants of an eligible interaction rebinds nobody and leaves every leader with at most four consensus-node hashes |
| `Batches.PassNeverRebinds` | ixpool/ixpool.go:655-722 | from any point of a pass to its end nobody is bound to another leader and no leader holds more than four hashes |
| `Batches.ScheduleKeeps` | ixpool/ixpool.go:749-768 | a turn keeps: what a batched interaction locks is bound to its leader and looked up under its batch, hashes are those spanned, and every lookup entry is earned by an interaction of that batch |
| `Batches.RunLanesKeeps` | ixpool/ixpool.go:738-773 | so does a whole pass, in any order of queues |
| `Intake.EligibleIff` | ixpool/ixpool.go:655-703 | an interaction is eligible exactly if nothing it locks is bound elsewhere, every unbound participant it locks is looked up, and the hashes its leader holds and the newcomers are together at most four |
| `Intake.AcquiresLocked` | ixpool/ixpool.go:705-719 | acquiring binds exactly what is locked and not created to the leader and adds exactly its hashes |
| `Intake.JoinsItsBatch` | ixpool/ix_batch_registry.go:69-87 | an interaction whose looked-up participants all point at one batch joins it exactly if it has at most a hundred interactions, and then as its last one; what it locks is then looked up there |
| `Intake.OpensBatch` | ixpool/ix_batch_registry.go:69-87 | one with none looked up opens a new batch, the last |
| `Intake.StaysOut` | ixpool/ix_batch_registry.go:69-87 | one whose looked-up participants point at two batches stays out |
| `Intake.TurnTakes` | ixpool/ixpool.go:749-768 | an eligible, ready interaction whose looked-up participants agree on a batch, or on none, is bound, and is taken in exactly if that batch is new or has at most a hundred; it is then the last one there and what it locks is looked up there |
| `Intake.TurnRefuses` | ixpool/ixpool.go:749-768 | one that is not eligible changes nothing, and one that is not ready is only bound |
| `Intake.PassTakesAll` | ixpool/ixpool.go:738-773 | a pass takes in every lane of its own in full, each as a batch of its own, in order: ready lanes of different senders under different leaders, of at most 101 interactions that lock their sender and nothing else |
| `Intake.LaneComesBack` | ixpool/ixpool.go:727-776 | one such lane walked alone comes back in full as the only batch, with its sender's hash |
| `Intake.LanesComeBack` | ixpool/ixpool.go:727-776 | up to twenty such lanes of at most 25 interactions come back whole, each in order without a gap in one returned batch, through sorts, merges and the cut |
| `Intake.BatchesComeBack` | ixpool/ix_batch_registry.go:124-147 | any pass of at most twenty batches of at most 25 interactions comes back whole, each batch without a gap inside a returned one |
| `Placement.RunLanesPlaces` | ixpool/ixpool.go:738-773 | a queue that locks its sender lands in one batch only, as a prefix, while all other queues are walked too |
| `Merging.ReturnedAreDisjoint` | ixpool/ix_batch_registry.go:69-168 | no locked participant occurs in two returned batches, and each batch's hashes are those its interactions span, whatever the order of queues, sorts, merges and the cut |
| `Merging.ReturnedSpanFew` | ixpool/ix_batch_registry.go:89-134 | if nothing is unlocked in one interaction and locked in another, every returned batch spans at most four hashes, merged or not |
| `Merging.ReturnedKeepOrder` | ixpool/ix_batch_registry.go:89-147 | what is returned of a queue that locks its sender sits in one batch and is a prefix of its promoted list, in order, even where a merge is cut off by the cap or a batch by the selection |
| `Merging.ReturnedAreCapped` | common/ix_batch.go:48-64 | no returned batch has more than 101 interactions |
| `Merging.AbsorbIs` | ixpool/ix_batch_registry.go:96-100 | merging takes a prefix of the other batch, with exactly its hashes, up to 101 interactions in all, and leaves something behind only when full |
| `Merging.MergesPairs` | ixpool/ix_batch_registry.go:89-118 | a round of merges joins the batches with the given number of hashes two by two in order, up to twenty times: the first takes the interactions of the second in order while it has at most a hundred, the second is left empty, and no other batch changes |
| `Merging.ChosenPairs` | ixpool/ix_batch_registry.go:124-147 | what is returned comes from sorting, such a round for one hash, one for two, sorting and cutting; nothing that is not empty is cut unless twenty are returned |
| `Merging.ReturnedAreSorted` | ixpool/ix_batch_registry.go:59-67 | returned batches are at most twenty, none is empty, and they stand with more interactions first and among equals with fewer hashes first |
| `BatchRegistry.AddToBatch` | common/ix_batch.go:48-64 | refuses above 100, otherwise appends and adds exactly the hashes of the locked participants, in any order |
| `BatchRegistry.Registry.FindBatchId` | ixpool/ix_batch_registry.go:149-168 | finds no batch, the one all looked-up participants agree on, or a conflict, in any order of participants |
| `BatchRegistry.Registry.AddIx` | ixpool/ix_batch_registry.go:69-87 | follows the pass model |
| `BatchRegistry.Registry.MergeBatches` | ixpool/ix_batch_registry.go:89-118 | the nested loops perform exactly the merges of the model and report whether there was one |
| `BatchRegistry.Sort` | ixpool/ix_batch_registry.go:59-67 | a sorted arrangement of the same batches: more interactions first, then fewer hashes |
| `BatchRegistry.Cut` | ixpool/ix_batch_registry.go:136-144 | the first twenty batches that are not empty, and all of them if there are fewer |
| `BatchRegistry.Registry.SelectOptimalBatches` | ixpool/ix_batch_registry.go:124-147 | sort, merge by one and by two hashes, sort again if needed, cut, as the model has it: at most twenty, none empty, sorted |
| `Scheduler.CountNew` | ixpool/ixpool.go:662-703 | counts the newcomers exactly and records their hashes; fails exactly if a participant is bound elsewhere or cannot be looked up, in any order |
| `Scheduler.Bind` | ixpool/ixpool.go:705-719 | binds exactly the locked participants and adds exactly their hashes, in any order |
| `Scheduler.PassState.IsEligibleForProposal` | ixpool/ixpool.go:655-722 | true exactly if the model calls the interaction eligible; binds then and only then |
| `Scheduler.Proposer.Turn` | ixpool/ixpool.go:749-768 | one turn of the inner loop follows the model; at most it renews this interaction's stale allotment in the current view, which changes nobody's readiness |
| `Scheduler.Proposer.ProcessableBatches` | ixpool/ixpool.go:727-776 | returns a selection of the batches the model's pass fills: at most twenty, none empty, sorted; the pass is a run of renewals of interactions it walks, in the current view, and keeps allotments own turns |
| `Scheduler.ReturnedAreReady` | ixpool/ixpool.go:749-775 | every returned interaction may be proposed in the current view |
| `Scheduler.ReturnedFormRun` | ixpool/ixpool.go:738-775 | what is returned of a valid queue that locks its sender has the ids from the first promoted one on, without a gap, in one batch |
| `Scheduler.LaneIsInterval` | ixpool/ixpool.go:742-747 | the sorted promoted list of a valid queue has consecutive ids up to the next one |
| `Scheduler.ReturnedPassOperatorCheck` | consensus/krama_engine.go:741-782 | with positions below five or unknown, and as long as every allotment has kept its turn, every returned batch passes the operator check of this node in the current view |
| `Scheduler.ReturnedInTurn` | ixpool/ixpool.go:754-775 | as long as every allotment has kept its turn, every interaction a pass returns is in its leader's turn |
| `Scheduler.Proposer.AllocateView` | ixpool/ixpool.go:220-251 | allots the next turn to each interaction whose leader's position is known and leaves the others alone |
| `Scheduler.Proposer.Follow` | ixpool/ixpool.go:203-251 | over every run of view updates, allotments and passes with fixed positions, only turns of this node are allotted, and every pass returns only batches whose leaders are in their turn in the view it is made in |
| `Views.NextViewIsLeast` | ixpool/ixpool.go:209-218 | the result is the least view not below the argument with the node's residue, if and only if the position is below five |
| `Views.AllocateIs` | ixpool/ixpool.go:220-251 | with a position below five the leader's interaction gets the least view from the given one on with that residue; without one it keeps what it had |
| `Views.ReadyIff` | ixpool/ixpool.go:754-764 | ready is what may be proposed and is allotted this view, or an earlier one where this view is the node's turn or the position is not known |
| `Views.AdvanceIs` | ixpool/ixpool.go:203-251 | a view update changes the view only, an allotment that of its interaction only |
| `Views.RunsAllotOwnTurns` | ixpool/ixpool.go:220-251 | from own turns, over every run of view changes and allotments with fixed positions, known or not, only turns of this node are allotted |
| `Views.ReadyMeansOwnTurn` | ixpool/ixpool.go:754-764 | an interaction that is ready is so in its leader's turn, if every allotment has kept its turn |
| `Views.ReadyInTurnIff` | ixpool/ixpool.go:754-764 | for any allotment and whatever positions have become: ready implies the leader's turn exactly if a stale allotment's leader still has a position here and one for this very view is this node's turn |
| `Views.OwnTurnsAreKept` | ixpool/ixpool.go:220-251 | with unchanged positions every allotment of own turns keeps its turn, in whatever view |
| `Views.LostPositionIsOutOfTurn` | ixpool/ixpool.go:221-240 | without the leader's position a stale view stands and the interaction is offered out of turn |
| `Views.ChooseLeader` | common/interaction.go:1180-1222 | none for an empty list; otherwise the first system leader, else the least non-regular one, else the least regular one |
| `DupCache.ReportsAreFarApart` | ixpool/ix_dup_cache.go:198-245 | over every interleaving of read phases, write phases and rotations with salts that do not repeat, at least two rotations lie between two calls that report one message as new |
| `DupCache.FoundIffRecent` | ixpool/ix_dup_cache.go:167-194 | with a digest that does not collide under one salt, a message is found exactly if it was reported new since the last rotation but one |
| `DupCache.ReadsOnIff` | ixpool/ix_dup_cache.go:198-208 | over every interleaving the read phase sends a message on exactly if it was not reported new since the last rotation but one, and changes nothing else |
| `DupCache.ReportsIff` | ixpool/ix_dup_cache.go:209-245 | the write phase reports it as new exactly if that still holds, and then inserts it under the current salt, or rotates a full page first and inserts it alone under the new one |
| `DupCache.RemixTurns` | ixpool/ix_dup_cache.go:126-139 | a rotation makes the current page with its salt the previous one and starts an empty one under the new salt |
| `DupCache.PagesAreBounded` | ixpool/ix_dup_cache.go:198-245 | with room for at least one digest neither page ever exceeds the maximum |
| `DupCache.NoRoomOverfills` | ixpool/ix_dup_cache.go:225-243 | with less room the first message already overfills the page |
| `DupCache.ResaltIsSafeIffEmpty` | ixpool/ix_dup_cache.go:247-257 | changing the salt in place keeps what is remembered exactly if the current page is empty |
| `DupCache.ResaltForgets` | ixpool/ix_dup_cache.go:247-257 | a message on the page is new again right after, with no rotation between |
| `DupCache.SaltedCache.PutPhase` | ixpool/ix_dup_cache.go:209-244 | the write phase after any other steps follows the protocol model |
| `DupCache.SaltedCache.CheckAndPut` | ixpool/ix_dup_cache.go:198-245 | with nothing in between: found exactly if either page has the message; otherwise inserted, after a rotation if the page is full |
| `DupCache.SaltedCache.InnerSwap` | ixpool/ix_dup_cache.go:126-139 | rotates pages and salts |
| `SystemFamilies.Run` | state/system_object.go:194-230 | carries out commands that create, copy, change by the four setters and finalize system objects, until one names no live object or place or is a visit that fails on a list another live object is on: each live object then holds the validators it would hold if every copy were deep, and each counter is at least the number of its users |
| `SystemFamilies.Step` | state/system_setters.go:16-105 | each command does to the shared objects what it does to the deep ones; a visit that fails on a list of the object's own ends there or leaves nothing behind |
| `SystemFamilies.StepEach` | state/system_setters.go:75-105 | a visit on a list nobody else is on keeps the family consistent, failing or not; what it leaves is decided by the counter |
| `SystemObjects.SystemObject.Copy` | state/system_object.go:194-230 | the copy shares list and counter and holds the same validators; the family stays consistent |
| `SystemObjects.SystemObject.Finalize` | state/system_object.go:221-225 | a finalizer counts one user less, not below zero, and leaves the others consistent |
| `SystemObjects.SystemObject.SetValidators` | state/system_setters.go:16-32 | sets this object's list and no other's; the family stays consistent exactly if whoever holds that list has this object's counter and nobody else holds one of its validators |
| `SystemObjects.SystemObject.AppendValidator` | state/system_setters.go:34-53 | appends for this object, keeps every other object's validators, whether or not the append reallocates; consistent exactly if the validator was held neither by another object nor, unless copied, by this one |
| `SystemObjects.SystemObject.UpdateValidator` | state/system_setters.go:55-73 | replaces one validator for this object and for no other; consistent exactly if the validator was held neither by another object nor, unless copied, at another place of this one |
| `SystemObjects.SystemObject.UpdateForEveryValidator` | state/system_setters.go:75-105 | with a callback that never fails: visits every validator of this object and of no other. With one that fails: the object keeps its list, unchanged if it was shared and with the visits before the failure if not, and the family stays consistent exactly if no other object is on the list |
| `SystemObjects.LeftOnOldList` | state/system_setters.go:75-92 | an object with a new counter on its old list fits in again exactly if nobody shares the list |
| `SystemObjects.Alone` | state/system_setters.go:36-42 | a counter of one means nobody else has the counter or the list |
| `SystemFamilies.FailedUpdateSplits` | state/system_setters.go:78-92 | a failing callback on a list shared by two leaves each with a counter of one |
| `SystemFamilies.WriteShows` | state/system_setters.go:55-73 | and then a write by one shows in the other |
| `SystemObjects.SystemObject.CopyValidators` | state/system_object.go:169-176 | a new list of new validators with the same records |
| `Commits.CommitThenLoad` | state/system_object.go:232-302 | after every run of setters and commits, from an empty or a loaded object, whose visits change no place without a mark, what a commit stores loads back as the same list and the same genesis time |
| `Commits.EditsLoadBack` | state/system_setters.go:9-105 | what loads back after such a run and a commit is the plain list that the same sets, appends, updates and visits make of the first one |
| `Commits.StepEdits` | state/system_setters.go:9-105 | each step edits the list and the time as it would a plain list and number, and no setter writes to storage |
| `Commits.StepMarks` | state/system_setters.go:9-105 | the indices each step marks and the fields it leaves dirty, exactly |
| `Commits.CommitLeaves` | state/system_object.go:232-267 | a commit leaves every key of a clean field and every unmarked index alone, keeps list, time and marked indices and clears the dirty fields |
| `Commits.LoadsIff` | state/system_object.go:283-313 | a list loads exactly if its count and that many records are stored, and is then those; a time loads exactly if it is stored |
| `Commits.CommitGoesThrough` | state/system_object.go:232-267 | while no set cuts the list below a marked index, a commit goes through exactly if its numbers fit their buffers |
| `Commits.CutListPanics` | state/system_object.go:247-250 | otherwise a marked index is past the list and the commit cannot go through |
| `Commits.UnreportedIsLost` | state/system_setters.go:86-104 | after any visit, failing or not, a commit stores at a place what the list holds there exactly if the visit left the place as it was or the place is marked: reported by a visit that did not fail, or marked before |
| `Commits.VisitLoadsBackIff` | state/system_setters.go:75-105 | so after a visit and a commit the list loads back exactly if every place the visit changed is marked |
| `Commits.EachKeeps` | state/system_setters.go:75-105 | and exactly then every place is marked or stored as it is, so that later commits are covered too |
| `Commits.LostChange` | state/system_setters.go:91-104 | one stored record, changed without a report: the old record loads back |
| `Commits.OneStoredIsCommitted` | state/system_object.go:232-267 | the storage of that example is what a commit of one record and the time 0 writes |
| `Commits.StepKeeps` | state/system_setters.go:9-105 | every setter and commit keeps: each place is marked for writing or stored as it is |
| `TrackedObjects.TrackedObject.SetValidators` | state/system_setters.go:16-32 | marks both fields and every index |
| `TrackedObjects.TrackedObject.AppendValidator` | state/system_setters.go:34-53 | marks both fields and the new index |
| `TrackedObjects.TrackedObject.UpdateForEveryValidator` | state/system_setters.go:75-105 | marks exactly the reported indices; a failing callback marks nothing and its visits stay only on a list that is not shared |
| `TrackedObjects.TrackedObject.Commit` | state/system_object.go:232-267 | goes through exactly if every dirty field can be written; then writes them in any order, with the same result, and clears them but not the indices |
| `TrackedObjects.TrackedObject.Perform` | state/system_setters.go:9-105 | setters and commit are the steps of the runs above, the genesis time among them |
| `TrackedObjects.TrackedObject.LoadValidators` | state/system_object.go:283-302 | succeeds exactly if the count and every record are there, and then loads exactly those; time, storage and marks stay |
| `TrackedObjects.TrackedObject.LoadGenesisTime` | state/system_object.go:304-313 | succeeds exactly if the time is there, and changes nothing else |
| `TrackedObjects.TrackedObject.Init` | state/system_object.go:157-167 | goes through exactly if time and validators can be loaded; a new object is then the loaded one from which the runs above start |
| `Varints.UintRoundTrip` | state/system_object.go:79-90 | numbers below 2^56 fit the 8 bytes and read back, and no other number fits |
| `Varints.IntRoundTrip` | state/system_object.go:92-103 | signed numbers from -2^55 up to 2^55 fit and read back, and no other fits |
| `Varints.GroupsAre` | state/system_object.go:85-90 | the bytes of a number are its groups of seven bits, least first, all but the last with the high bit, and none is wasted |
| `Varints.ReadIs` | state/system_object.go:79-83 | a number is read from the bytes up to the first without the high bit |
| `Varints.OneHundredFifty` | state/system_object.go:85-90 | 150 is written as 0x96 0x01, filled up with zeros to eight bytes |
| `Varints.ZigZagAlternates` | state/system_object.go:92-103 | 0, -1, 1, -2 and so on are written as 0, 1, 2, 3 and so on, and read back |
| `Varints.PutUvarint` | state/system_object.go:85-90 | the loop fills the front of the buffer with the groups and leaves the rest, and runs past the end exactly if they do not fit |
| `Varints.Uvarint` | state/system_object.go:79-83 | the loop reads the number up to its last byte; zero if it does not end or does not fit 64 bits |
| `Committees.FetchParticipantsAndCommittee` | consensus/krama_engine.go:640-738 | fails exactly if an existing account or its consensus nodes are not found; otherwise every existing account has one set, shared exactly with the accounts of its hash, each set has the nodes of the least account on it and a quorum taken of their number, is left out exactly if all its accounts are unlocked, the data under a hash lead to that set and count its accounts, and sets are numbered by their least accounts |
| `Committees.OwnNodesIff` | consensus/krama_engine.go:690-735 | every account is decided by its own nodes exactly if accounts of equal hash have equal nodes |
| `Committees.AddKeeps` | consensus/krama_engine.go:690-735 | seating one more account keeps all of that |
| `Certificates.GetKramaId` | consensus/types/nodeset.go:391-433 | the sets a signer counts towards: its own once, and each later context set as often as its node is in it |
| `Certificates.WeightIs` | consensus/types/nodeset.go:391-433 | signers are numbered through the sets in order; a node counts once for its own set and for a later context set as often as it is listed there |
| `Certificates.Int32Is` | consensus/krama_engine.go:1375-1376 | a signer number is cut to a signed 32-bit one, exact below 2^31 |
| `Certificates.CountVotes` | consensus/krama_engine.go:1375-1386 | the counters are the sums of those weights over the signers |
| `Certificates.VerifyQc` | consensus/krama_engine.go:1362-1421 | takes the signer numbers from the bit array; context failure exactly if some set that takes part lacks its quorum, random failure exactly if only the stochastic set does |
| `Certificates.TwoThirdsIs` | consensus/types/nodeset.go:231-244 | of a 32-bit size the quorum is the least number above two thirds exactly if twice the size fits 32 bits |
| `Certificates.QuorumWraps` | consensus/types/nodeset.go:231-244 | the quorum of 2^31 nodes is one |
| `Certificates.VotesAreSigners` | consensus/krama_engine.go:1375-1386 | with no node twice in one set, the votes for a set are as many different signer numbers |
| `Certificates.QuorumOfSigners` | consensus/krama_engine.go:1388-1400 | what reaches the signature check has, in every context set that takes part and in the stochastic set, at least a quorum of different signer numbers that vote for that set |
| `Certificates.QuorumsMeet` | consensus/krama_engine.go:1388-1400 | two signer lists with a quorum of more than half of the signer numbers that vote for a set share one of them |
| `Certificates.QuorumsMeetIff` | consensus/krama_engine.go:1388-1400 | any two signer lists with a quorum share a signer number of the set exactly if the quorum is more than half of the numbers that vote for it |
| `Certificates.OwnVoters` | consensus/types/nodeset.go:391-433 | if no node of an earlier set is in the set, exactly its own signer numbers vote for it |
| `Certificates.CertificatesMeet` | consensus/krama_engine.go:1388-1400 | so any two certificates that reach the signature check share a signer number in every such set, with the quorum of two thirds and one |
| `Certificates.AcceptedMeet` | consensus/krama_engine.go:1388-1400 | mixed or not, they share a signer number in every set that takes part and whose quorum is more than half of its voting numbers |
| `Certificates.VotesAreNodesIff` | consensus/types/nodeset.go:414-426 | the votes for a set are the votes of as many different nodes, whoever signs, exactly if no node of an earlier set sits in it |
| `Certificates.DisjointCertificates` | consensus/types/nodeset.go:414-426 | four nodes that sit in an excluded set and in the next one: two certificates reach the signature check without a common signer number in the set that decides |
| `Certificates.TwoNodesMakeQuorum` | consensus/types/nodeset.go:414-426 | on the same committee two nodes each, and different ones, make the quorum of four |
| `Prepares.ProcessPrepareMsgs` | consensus/handler.go:45-104 | for all lists of shared messages and all orders: answered messages that share a list have one sender; without ties between senders a message is left in exactly if its sender leads all its lists; a message strictly least in its lists is answered if its views load |
| `Prepares.LeastOfAllLeads` | consensus/handler.go:16-26 | the message of least rank of all leads its lists, so it is never suppressed when ranks differ between senders |
| `Prepares.FindWinner` | consensus/handler.go:16-26 | sorts the list by rank, in place of it, and returns the sender of its first message |
| `Prepares.Arbitrate` | consensus/handler.go:45-60 | after the first pass a message is left in exactly if its sender wins every list it is in |
| `Prepares.ReplyTo` | consensus/handler.go:62-103 | of one list the first message that is neither suppressed nor answered is answered if its views load, and none if they do not |
| `Prepares.Reply` | consensus/handler.go:62-103 | the second pass answers only messages left in whose views load, and every list's first one if that can be |
| `LockEvaluation.StandingIsNotBelow` | consensus/ics_handler.go:351-435 | with prevotes and precommits only, no lock that stands is below a presented certificate on any of its accounts |
| `LockEvaluation.StandsIff` | consensus/ics_handler.go:394-420 | a lock stands exactly if on each account the first certificate of greatest height is a proposal's, or a prevote's of the lock's own height and no later view |
| `LockEvaluation.StandsInOrderIff` | consensus/ics_handler.go:381-420 | in the order of presentation: a lock stands exactly if on each of its accounts the certificate that comes first at the greatest height is a proposal's, or a prevote's of the lock's own height and no later view |
| `LockEvaluation.OrderDecides` | consensus/ics_handler.go:381-420 | a prevote and a precommit of one height: the lock stands if the prevote comes first and falls in the other order |
| `LockEvaluation.StandsBelowAProposal` | consensus/ics_handler.go:394-420 | with a proposal certificate among them a lock can stand below it |
| `LockEvaluation.BelowMeansProposalOnTop` | consensus/ics_handler.go:394-420 | and stands below nothing else |
| `LockEvaluation.TopsAreFirstGreatest` | consensus/ics_handler.go:381-391 | what is kept per account is the first certificate of the greatest height |
| `LockEvaluation.ResolveIs` | consensus/ics_handler.go:357-372 | the certificates evaluated are those presented, in order, each with the tesseract under its hash; it fails exactly if one leads nowhere |
| `LockEvaluation.LockedIffPrevoted` | consensus/ics_handler.go:374-379 | a tesseract is locked exactly if a prevote of it is presented, under the view of the last one |
| `LockEvaluation.SurvivesIff` | consensus/ics_handler.go:374-420 | what is left after pruning, over the presented certificates: the tesseracts whose last prevote finds, on each of its accounts, first at the greatest height a proposal or a prevote of the same height and no later view |
| `LockEvaluation.LastViewCounts` | consensus/ics_handler.go:374-420 | two prevotes of one tesseract: with the earlier view last there is no lock, with the later view last there is |
| `LockEvaluation.EvaluateLockedTesseracts` | consensus/ics_handler.go:351-435 | fails exactly if a tesseract is missing; otherwise, over the presented certificates, no lock means that no last prevote stands, a valid lock is the tesseract of one that stands and has the cluster's interactions, an invalid one means that only others stand |
| `LockEvaluation.GetLockStatus` | consensus/ics_handler.go:444-450 | the same once a prevote certificate is presented; without one there is no lock |
| `Ledgers.RunConserves` | compute/ixasset.go:161-491 | with one token id, over every run of accepted operations the sum over accounts of balance and lockups changes only by mints and burns, keeps its distance to the circulating supply, and the supply stays within its maximum |
| `Ledgers.RunHoldings` | state/object.go:394-538 | with any token ids, a token's sum changes by exactly what is issued and what credits overwrite |
| `Ledgers.OtherTokenKept` | state/object.go:411-416 | an operation keeps another token's sum exactly if the account it is to credit has the operation's token, or keeps some of it where it also pays, or has none of the other |
| `Ledgers.CreditWipes` | state/object.go:411-416 | a transfer of one token to an account that has only another wipes that out |
| `Ledgers.StepNoDebts` | compute/ixasset.go:206-261 | an accepted operation leaves no entry negative exactly if it credits the balance it takes from or the balance it is to credit plus the amount is not below zero; validating a consumed mandate puts no lower bound on the amount |
| `Ledgers.NegativeConsume` | compute/ixasset.go:224-244 | an operator with a mandate consumes -5: accepted, and it leaves the beneficiary at -5 and the benefactor with 5 more |
| `Ledgers.OtherTokenCrashes` | state/object.go:487-496 | an account that has token 2 and has locked up token 1 for the operator: a lockup of token 2 is validated and meets the nil entry |
| `Ledgers.RunNoDebts` | compute/ixasset.go:161-491 | so no entry turns negative while amounts are not |
| `Ledgers.RunWithinMandate` | state/object.go:603-709 | over every run, what an operator has drawn plus what it may still draw is at most what it was approved, draws counted with their sign; positive draws alone are within that plus what negative ones put back |
| `Ledgers.RunOnMandate` | state/object.go:603-675 | with their sign, exactly that while nothing ends its mandate |
| `Ledgers.TakenWithinApprovedIff` | compute/ixasset.go:224-244 | while nothing ends the mandate, positive draws and what may still be drawn are within what was approved exactly if no negative amount was drawn |
| `Ledgers.DrawnBeyondApproved` | compute/ixasset.go:224-244 | an operator approved for 10 draws -5 and then 15 |
| `Ledgers.StepRemaining` | state/object.go:603-709 | a mandate changes by what is approved and drawn, and ends when it is revoked or the account approves an operator that has none |
| `Ledgers.ApprovalWipes` | state/object.go:603-638 | approving an operator without a mandate ends another's mandate of 5 |
| `AssetObjects.AssetObject.AddBalance` | state/object.go:394-425 | adds to the entry, or replaces all entries by the new one |
| `AssetObjects.AssetObject.SubBalance` | state/object.go:428-455 | fails exactly without the token; removes an entry of zero |
| `AssetObjects.AssetObject.CreateLockup` | state/object.go:460-506 | moves the amount from the balance into the lockup; without the token it is refused, and a beneficiary with a lockup in other tokens only stops it once the balance is reduced |
| `AssetObjects.AssetObject.ReleaseLockup` | state/object.go:510-538 | takes the amount off the lockup; stops at a missing one and changes nothing |
| `AssetObjects.AssetObject.CreateMandate` | state/object.go:603-638 | adds to a mandate, or replaces all mandates by the new one |
| `AssetObjects.AssetObject.ConsumeMandate` | state/object.go:678-688 | takes the amount off mandate and balance; without the token in the balance the mandate is drawn all the same, and without the mandate nothing changes |
| `AssetObjects.AssetObject.DeleteMandate` | state/object.go:691-709 | ends exactly that mandate |
| `AssetObjects.TransferAsset` | compute/ixasset.go:192-203 | debits and credits, also where both objects are the same; changes nothing when it fails |
| `AssetObjects.ConsumeMandate` | compute/ixasset.go:250-261 | draws, debits and credits, also where both objects are the same; when it fails the beneficiary gets nothing, and the mandate is drawn exactly if it was there and the balance was missing |
| `AssetObjects.ReleaseAsset` | compute/ixasset.go:481-491 | takes off the lockup and credits, also where both objects are the same; stops at a missing lockup and changes nothing |
| `LedgerEntries.AcceptedIff` | compute/ixasset.go:161-491 | when each operation is accepted, over the entries: permitted, the lower bound of one where there is one, the entry that covers the amount, the manager and the maximum for supply |
| `LedgerEntries.OnlyManagerIssues` | compute/asset_engine.go:407-469 | only a mint or burn by the manager changes the supply |
| `LedgerEntries.RunManagerIssues` | compute/asset_engine.go:407-469 | so over every run the supply stays as it is unless the manager mints or burns |
| `LedgerEntries.LockUpMoves` | state/object.go:460-506 | an accepted lockup lowers the balance entry by the amount, raises the operator's lockup entry by it and changes no other entry of any account |
| `LedgerEntries.ReleaseMoves` | state/object.go:510-538 | an accepted release lowers the operator's lockup entry by the amount, which goes with its last unit, credits the beneficiary and changes no other lockup or mandate; the beneficiary's other balances are wiped exactly if it had none of the token |
| `LedgerEntries.TransferMoves` | compute/ixasset.go:192-203 | an accepted transfer lowers one balance entry and raises the other by the amount, with the same exception, and changes nothing else; to oneself it changes nothing, or wipes the other balances if it moves all of the token |
| `LedgerEntries.ConsumeMoves` | compute/ixasset.go:250-261 | consuming does the same and lowers the operator's mandate entry by the amount, and no other |
| `LedgerEntries.MintMoves` | compute/asset_engine.go:407-442 | minting credits the beneficiary and raises the supply |
| `LedgerEntries.BurnMoves` | compute/asset_engine.go:444-469 | burning lowers one balance entry and the supply, and changes nothing else |
| `LedgerEntries.ApproveMoves` | state/object.go:603-638 | approving raises the operator's mandate entry, and wipes the mandates of the others exactly if it had none; balances and lockups stay |
| `LedgerEntries.RevokeMoves` | state/object.go:691-709 | revoking removes one mandate entry and changes nothing else |
| `AssetEngines.AssetEngine.Transfer` | compute/asset_engine.go:345-381 | done exactly if permitted, the amount is at least one and the account has it; then debits and credits, otherwise changes nothing, as the ledger model says |
| `AssetEngines.AssetEngine.Consume` | compute/asset_engine.go:345-405 | done exactly if permitted and both balance and mandate cover the amount; then draws, debits and credits, as the ledger model says |
| `AssetEngines.AssetEngine.Mint` | compute/asset_engine.go:407-442 | done exactly if permitted, by the manager, with at least one and within the maximum; then raises supply and balance, as the ledger model says |
| `AssetEngines.AssetEngine.Burn` | compute/asset_engine.go:444-469 | done exactly if permitted, by the manager, with at least one that it has; then lowers supply and balance, as the ledger model says |
| `AssetEngines.AssetEngine.Lockup` | compute/asset_engine.go:516-536 | refused exactly if not permitted, below one or above the balance; otherwise goes through exactly if the operator has no lockup of the account or has one in the token, and is stopped with the balance reduced if not, as the ledger model says |
| `AssetEngines.AssetEngine.Release` | compute/asset_engine.go:538-564 | done exactly if permitted and the lockup covers the amount; then takes it off and credits, as the ledger model says |
| `AssetEngines.AssetEngine.Approve` | compute/asset_engine.go:471-493 | done exactly if permitted, with at least one that the account has; then grants it, as the ledger model says |
| `AssetEngines.AssetEngine.Revoke` | compute/asset_engine.go:495-514 | done exactly if permitted and the mandate exists; then ends it, as the ledger model says |
| `BitArrays.BitArray.GetTrueIndices` | common/arrayofbits.go:316-353 | strictly increasing, and exactly the set bits below the size or in a word before the last, whatever the number of words |
| `BitArrays.BitArray.ReadsIsSet` | common/arrayofbits.go:316-353 | with the number of words the size asks for, those are exactly the indices of the set |
| `BitArrays.BitArray.IsFull` | common/arrayofbits.go:273-293 | true exactly if every bit below the size is set, whatever lies above it |
| `BitArrays.BitArray.Intersect` | common/arrayofbits.go:200-208 | the intersection of the two index sets, of the smaller size |
| `BitArrays.BitArray.Subtract` | common/arrayofbits.go:232-252 | the difference exactly if no bit of the input beyond its size hits an index of this array |
| `BitArrays.StrayBit` | common/arrayofbits.go:232-252 | a set bit above the size of the input takes away an index that is not in it |
| `BitArrays.BitArray.SetIndex` | common/arrayofbits.go:71-83 | adds or removes exactly that index; refuses one beyond the size |
| `BitArrays.BitArray.GetIndex` | common/arrayofbits.go:51-57 | true exactly for the indices of the set |
| `Words.FullLow` | common/arrayofbits.go:288-292 | adding one clears the lowest bits of a word exactly if all of them were set, whatever lies above |

## Left out

- Pools.ReachableStates: the limit leaves room for one interaction below 2^64 (`TestExactIff` says what happens otherwise), and a commit's first interaction of a sender with an account names a key that has a queue, as the source dereferences it without a test (`ResetWithHeaders` says when).
- IxPools.IxPool.AddIx: price, funds, signature and payload checks are one parameter, and the state's sequence id is another.
- Views.NextViewIsLeast: views are unbounded numbers; the wrap of a 64-bit view is not modelled.
- Scheduler.Proposer.Follow: positions stay as they are during a run; `ReadyInTurnIff` says exactly what one that changed does.
- Scheduler.Proposer.ProcessableBatches: the promoted lists are a parameter, sorted as the source sorts them, in any order; which queues they are is modelled in `AccountTrees`, on values, with the tree as a set. Batches are values held by the registry, not objects of their own.
- Pools.EarlyAnswers: where eighty times the limit fits 64 bits; `PressureExactIff` says what the test means otherwise. The same for `LateAnswers`.
- Intake.PassTakesAll: lanes of different senders under different leaders that lock their sender and nothing else; what a turn does with any other interaction is `TurnTakes`, `TurnRefuses` and `StaysOut`.
- DupCache.ReportsAreFarApart: salts do not repeat by assumption; the source draws 32 random bits. The plain digest cache without salt would only add an easier copy.
- SystemFamilies.Run: the lists and validators handed to setters are new ones; the setters' own contracts say exactly when others keep the family consistent. A visit that fails on a shared list ends the run; `FailedUpdateSplits` and `WriteShows` say what follows.
- Commits.CommitThenLoad: encoding and decoding a validator record are taken as each other's inverse.
- Certificates.QuorumsMeetIff: committees of at most 2^31 signer numbers, which is all a 32-bit signed number can name, and no node listed twice in one set; the same for `VotesAreNodesIff`.
- Prepares.ProcessPrepareMsgs: that the views load is a parameter; a send that fails counts as answered, as in the source. The lists that reach it are not empty.
- Ledgers.RunConserves: amounts are numbers, not shared objects, so an amount the source keeps by reference is taken as not changed later; the asset object is already loaded where a mint changes the supply; mandate expiry is part of what is permitted.
- TrackedObjects.TrackedObject.Commit: storage that fails is not modelled.
- BitArrays.BitArray.GetTrueIndices: for arrays with at least one word.
- Token and asset metadata, asset creation and snapshots of state objects are not modelled.
- `IxPool.Pop`, events, metrics, wait times and the executable queues are not modelled.
- `Or`, `Xor` and `Not` of bit arrays and the storage, network, signature and encoding layers are not modelled.
