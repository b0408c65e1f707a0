# Epic and GAccO: deterministic transactions on the GPU

Epic runs transactions in epochs. A submitter lists every access of a batch; a planner per table sorts the
accesses by record, scans them, and tells each access where its row is: at the record's A side (the newest row
of the epochs before), at its B side (the last row written in this epoch) or in a version slot (every other row
written in this epoch). The transactions then all run at once and wait for nothing but version tags.
GAccO, the second engine of the repository, lists for every row the transactions that will lock it and hands the
lock from one to the next. Both promise that every interleaving has the result of running the transactions in
the order of their ids.

This project models both engines, what feeds them (transaction generation, indexing, submission) and three
benchmarks (YCSB, TPC-C, micro), and proves that promise from the submitted batch to the rows in memory.

## How the project is laid out

| part | modules |
|---|---|
| plans: sorting, scans, classification, scatter | `Machine`, `Accesses`, `StableSort`, `PackedOps`, `PackedBatches`, `Planner`, `PlannerKernels`, `Tables` |
| Epic's storage protocol: small-step machine, invariant, theorems, device | `Execution`, `SerialEquivalence`, `Epochs`, `Progress`, `Tickets`, `DeviceExecution`, `CpuStorage`, `InOrder` |
| Epic's benchmarks: submission, whole epochs and runs | `Offsets`, `YcsbSubmitter`, `YcsbEpoch`, `TpccTables`, `TpccSubmitter`, `TpccProgram`, `TpccEpoch`, `ShortcutFails`, `TpccLanes`, `SerialRows`, `TpccWords`, `SerialWords`, `EpochWords`, `Money`, `DeliveryBalance`, `TpccRun`, `OrderIds`, `Retry`, `MicroEpoch`, `MicroRun` |
| generation and indexing | `TpccGenerator`, `BatchIndex`, `StockLevel`, `RowIndex`, `TpccKeys`, `TpccIndex`, `DeliveryShortcut`, `IndexedEpochs`, `YcsbGenerator` |
| GAccO's locks: lists, machine, safety, progress, device | `GaccoPlanner`, `Locks`, `LockSafety`, `LockDevice`, `LockTickets`, `LockNames`, `LockPrograms` |
| GAccO's benchmarks and stock paths | `GaccoTpcc`, `GaccoWork`, `Footprints`, `GaccoTpccEpoch`, `GaccoYcsb`, `LockStarvation`, `LockOut`, `AtomicMoney`, `MoneyPaths`, `Stock`, `StockCas`, `StockPaths` |

Whatever the source updates in place is a class or an array here (planner buffers, device storage, lock arrays,
index and generator counters, benchmark buffers); each such method is proved against a function of the state,
and the theorems are lemmas about that function. Concurrency is a machine whose steps are what one warp or
thread does between two accesses to shared memory: a row is read and written word by word, and storing the
version tag, polling a lock, advancing a list offset and storing the next holder are steps of their own. A
schedule is any sequence of unit numbers.

## Main results

1. `YcsbEpoch.RunEpoch`, `TpccEpoch.RunEpoch`: one Epic epoch end to end. For every batch, every order in which
   the submitting threads write and the warps take their steps leaves memory with the rows of the serial run, and
   ready for the next epoch. They rest on `Planner.PlanIsCorrect`, `Tables.PlansCompose`,
   `SerialEquivalence.EpochIsSerial` and the measure of `Progress`; `Epochs.RunIsSerial` chains any number of epochs.
2. `Tickets.KernelEndsSerially`: with two-level tickets and a bound on resident blocks no run gets stuck, every
   run ends, and it ends serially; `Tickets.StridedEndsSerially` and `CpuStorage.CpuThreadsEnd` for strided CPU threads.
3. `LockSafety.MutualExclusion`, `ActsInTxnOrder`, `SmallestTakesLock`, `LockTickets.KernelEndsSerially`,
   `GaccoTpccEpoch.RunEpoch`, `GaccoYcsb.RunEpoch`: the same for GAccO's hand-off locks, although the last release
   of a row stores a name of the next row's list. `AtomicMoney.AtomicTotalsAreSerial` and `AtomicTotalsBalance`: so
   for the totals that the atomic mode updates without locks.
4. Properties that hold only sometimes are proved with the exact condition: `ShortcutFails.ShortcutWorksIff`,
   `CpuStorage.CpuSerialIffNoReadBetweenWrites`, `GaccoYcsb.ExclusiveIffRowsDistinct`, `LockOut.LockedOutIff`,
   `DeliveryBalance.BalanceIsIntendedIff`, and `Stock.EpicSellIs`, which says where Epic's stock quantity is wrong and
   what it is there.
5. The generated batches meet those conditions: `DeliveryShortcut.GeneratedBatchesDeliverLast`,
   `GaccoYcsb.GeneratedIsExclusive`.
6. `TpccRun.RunBenchmark`: the whole TPC-C run. From the initial load on every epoch is indexed, submitted, planned and
   executed, and whatever the interleavings memory ends up as if all batches had been run transaction by
   transaction. No lookup fails, the free rows suffice, and every transaction gets the rows that it is about when the
   transactions run one after the other. It rests on `TpccEpoch.RunEpoch`, `BatchIndex.OrderStatusIsSerial`,
   `StockLevel.SeenIsExact` and `TpccKeys.RoomForEpoch`.
7. `EpochWords.EpochLeaves`, `TpccRun.RunLeaves`: what is left in memory. `TpccWords.TxnWord` says, without accesses,
   registers or lanes, what a transaction of each of the five types does to each word of the database; after every
   finished run of an epoch, and after a whole run, every word is what the transactions make of it one after the other.
   `RunStock`: a stock row has lost the quantities of all orders for it, in batch order, by Epic's rule.
   `StockLevelCounts`: a StockLevel counts the rows that are low once the orders of the transactions before it have been
   deducted, and of no later one. `OrderIds.RunNextOrderId`: a district has the id of its newest order.
   `MoneyPaths.EnginesAgree`: Epic, GAccO's locks and GAccO's atomic additions leave the same totals.
   `GaccoWork.TxnWorksOnWhatIsListed`: under its locks a transaction works on exactly the rows that it lists, once for
   each time that it lists them, in a section of its own.
8. `Money.RunBalances`: over any number of epochs, in every interleaving, with what the executor's lanes write, a
   warehouse's total stays the sum of its districts' totals. `DeliveryBalance.EpochBalance` and `TpccRun.RunBalance`:
   what becomes of the customers' balances.
9. `MicroRun.MicroBenchmark.RunBenchmark` with `Retry.RunsExactlyOnce`: the micro benchmark's whole run, with its
   retries. `StockPaths.StockPathsAgree`: GAccO's two stock paths leave the same quantities.

## Where the code departs from its intent

- The CPU form of the version write (`storage.h:151-153`) stores the tag but not the row: the copy is commented
  out. `CpuSerialIffNoReadBetweenWrites` says that serial reads then hold exactly for the batches in which no read
  lies between two writes of its record. All other results are about the GPU form.
- Epic's GPU stock rule uses `>` (`benchmarks/tpcc_gpu_executor.cu:85`), Epic's CPU rule and GAccO use `>=`
  (`benchmarks/tpcc_cpu_executor.cpp:69`, `gacco/benchmarks/tpcc_gpu_executor.cu:103-116`). `Stock.EpicSellIs` says
  what comes of it: 101 where 10 is right, and nothing else.
- The executor writes Delivery's order lines to B without looking into its plan
  (`benchmarks/tpcc_gpu_executor.cu:230-231`). `ShortcutWorksIff` says that this is right for exactly the batches in
  which nobody writes a line after it was delivered; `ShortcutLeavesStaleLine` says what goes wrong in others. All
  generated batches are of the right kind.
- GAccO's piecewise YCSB kernel lets all ten pieces of a transaction use the transaction's id
  (`gacco/benchmarks/ycsb_gpu_executor.cu:106-120`), so the protocol alone would let two pieces on one row inside
  together (`ExclusiveIffRowsDistinct`, `ClashBreaksExclusion`), after which a lock can name a finished transaction
  for good. `LockOut.LockedOutIff` says that a piece can be locked out of its row exactly when an earlier transaction
  uses the row twice. The shipped generator redraws a key until its transaction does not have
  it yet (`gacco/benchmarks/ycsb.cpp:123-139`) and the index gives different keys different rows, so no generated
  batch has such pieces (`GeneratedRowsDistinct`, `GeneratedIsExclusive`): the kernel relies on the generator.
- In Delivery the result of the `__shfl_sync` that should bring the summed amount to the balance's lane is discarded
  (`benchmarks/tpcc_gpu_executor.cu:234-246`), and the lane adds its own amount, which is zero
  (`DeliveryBalance.OthersAddNothing`). So a customer's balance only ever loses what the customer pays
  (`EpochBalance`); that is the intended balance exactly where the amounts delivered to the customer come to nothing
  modulo 2^32 (`BalanceIsIntendedIff`), and `DeliveryIsNotAdded` gives a Delivery for which it is not. With the
  shuffle's result the same lanes would reach the intended balance (`ShuffledBalance`).
- A NewOrder writes the rows of its order and its new-order entry with whatever its lanes hold, which is the row of the
  customer (`benchmarks/tpcc_gpu_executor.cu:67-74`); `TpccWords.OrderRowIs` says so. In the order lines the supplying
  warehouse is the row of the ordering one, and the words that are not set are those of the stock row
  (`benchmarks/tpcc_gpu_executor.cu:90-112`, `TpccWords.LineIs`).
- A district's next order id is set to the id of the order itself (`benchmarks/tpcc_gpu_index.cu:171`). So the district has
  the id of its newest order (`OrderIds.RunNextOrderId`), where clause 3.3.2.2 of TPC-C asks for one more.
- The GPU index copies neither the quantities of a NewOrder nor the amount of a Payment into the parameters
  (`benchmarks/tpcc_gpu_index.cu:141-325`), which the CPU index does (`benchmarks/tpcc_index.cpp:96-127`). The model leaves
  these values arbitrary.
- The prefix sum of the counts is stored one place further on (`benchmarks/ycsb_gpu_submitter.cu:164-167`), so it
  writes the entry behind the last transaction's, for which `gpu_execution_planner.cu:54-55` asks no room. As sizes
  are rounded up to 128 bytes (`gpu_execution_planner.cu:28-37`), the entry is outside the allocation only where the
  number of transactions is a multiple of 32 (`Offsets.LastOffsetFits`). The model requires one entry more.
- The planners' buffers hold a fixed number of accesses per transaction (`benchmarks/tpcc.cpp:77-94`: 30 for order
  lines and stock), while a Delivery can submit 300 and a StockLevel 300. `TpccRun.MixFits` is the condition on the
  mix under which every epoch's batches fit.
- The YCSB generator has no bound on the records it inserts. `YcsbGenerator.RowsFitIff` says that the row ids fit
  the table exactly as long as there are no more records than it has rows.
- A comment in `benchmarks/tpcc_txn_gen.cpp:47` says that the items of an order are unique; the loop below it does
  not compare an item with the one just before it. The model therefore allows a transaction to use a stock row
  twice.
- The generator guards a Delivery by an assertion only (`benchmarks/tpcc_txn_gen.h:74-77`). The model returns `None`
  where the assertion fails.
- The GPU index files order lines under the origin warehouse (`benchmarks/tpcc_gpu_index.cu:60`), the CPU index under
  the supply warehouse (`benchmarks/tpcc_index.cpp:94`). The model follows the GPU index.

## Model

| member | source | states |
|---|---|---|
| Accesses.LastWrite | gpu_execution_planner.cu:119-146 | the write that a read has to follow: a write of the record, with no later one before the read; -1 exactly when there is none |
| StableSort.PosOrder | gpu_execution_planner.cu:216-218 | two sorted positions compare as (record, submission index), and are equal only for the same access |
| StableSort.PosOnto | gpu_execution_planner.cu:216-218 | every position receives an access, so sorting permutes the batch |
| StableSort.SortKeys | gpu_execution_planner.cu:216-218 | the output holds every submitted access at its position in the order (record, submission index) |
| PackedOps.RoundTripIffFieldsFit | execution_planner.h:29-46 | unpacking gives back all four fields exactly when each fits its 32, 20, 1 and 11 bits |
| PackedBatches.TpccBatchPacks | benchmarks/tpcc_gpu_submitter.cu:213-341 | with at most 2^20 transactions a table's batch packs without loss exactly when its row ids fit 32 bits: plan words always fit |
| PackedBatches.YcsbBatchPacks | benchmarks/ycsb_gpu_submitter.cu:60-155 | the same for a YCSB batch, in both table forms |
| PackedBatches.MicroBatchPacks | benchmarks/micro_submitter.h:34-62 | the same for a micro batch, whose retried transactions have ids of their own |
| Planner.NoWriteBefore | gpu_execution_planner.cu:238-242 | the prefix count is zero exactly when no earlier access to the record is a write |
| Planner.NoWriteAfter | gpu_execution_planner.cu:262-268 | the suffix count is zero exactly when no later access to the record is a write |
| Planner.ReadSharesLocation | gpu_execution_planner.cu:172-177 | a read after a write, with no other write of the record between, gets that write's location, though the version count runs over all records |
| Planner.WriteLocation | gpu_execution_planner.cu:119-129 | a write is never sent to A, and to B exactly when it is the record's last write of the epoch |
| Planner.SortedPlanOk | gpu_execution_planner.cu:238-290 | over the sorted accesses the computed locations are a correct plan |
| Planner.SlotsBelowSentinels | execution_planner.h:48-49 | no version slot number collides with the sentinels for A and B |
| Planner.SlotsAreExact | gpu_execution_planner.cu:276-279 | the slots used are exactly 0 to V-1, each by one write |
| Planner.SlotCount | gpu_execution_planner.cu:276-279 | V is the number of writes less the number of records written |
| Planner.PlanIsCorrect | gpu_execution_planner.cu:216-290 | planner location theorem, in submission order: reads follow the last earlier write of their record or get A; the last write of a record and no other gets B; no two writes share a slot |
| PlannerKernels.ExclusiveSumByKey | gpu_execution_planner.cu:238-242 | leaves in the buffer, for every access, the writes of the same record before it |
| PlannerKernels.ReverseExclusiveSumByKey | gpu_execution_planner.cu:262-268 | leaves, for every access, the writes of the same record after it |
| PlannerKernels.CalcOperationType | gpu_execution_planner.cu:109-150 | leaves every access's class |
| PlannerKernels.ExclusiveSum | gpu_execution_planner.cu:276-279 | leaves, for every access, the version writes of all records before it |
| PlannerKernels.ScatterRWLocation | gpu_execution_planner.cu:152-185 | every access's plan word holds its location word, and no other plan word changes |
| PlannerKernels.GpuTableExecutionPlanner.constructor | gpu_execution_planner.cu:40-80 | all buffers are separate and empty |
| PlannerKernels.GpuTableExecutionPlanner.SortSubmitted | gpu_execution_planner.cu:216-218 | the sorted buffer is the stable sort of the submitted one, which is kept |
| PlannerKernels.GpuTableExecutionPlanner.ScatterSorted | gpu_execution_planner.cu:238-290 | the scans, the classification and the scatter leave the sorted accesses' locations in the plan |
| PlannerKernels.GpuTableExecutionPlanner.InitializeExecutionPlan | gpu_execution_planner.cu:188-296 | every submitted access finds its location of a correct plan in its plan word; all other plan words are kept; an empty batch changes nothing |
| PlannerKernels.SortedWordsDistinct | gpu_execution_planner.cu:181-184 | sorting keeps plan words distinct, so each is scattered once |
| PlannerKernels.ScatteredPlan | gpu_execution_planner.cu:181-184 | what the scatter leaves is the correct plan of the batch, in submission order |
| Tables.SlicesCompose | gpu_execution_planner.cu:188-296 | correct plans of the single tables, each seeing its own accesses only, make a correct plan of the whole batch |
| Tables.OtherPlannersKeepPlan | gpu_execution_planner.cu:181-184 | a planner that scatters into other words leaves a table's plan intact |
| Tables.PlansCompose | gpu_execution_planner.cu:188-296 | if every table's planner has done its work, the locations that the executing transactions find are a correct plan |
| Execution.StoreIsLastWrite | benchmarks/tpcc_cpu_executor.cpp:106-141 | in the serial run a record always holds what its last write so far wrote |
| SerialEquivalence.DistinctTargets | gpu_storage.cuh:334-361 | no two writes of an epoch go to the same cell |
| SerialEquivalence.SidesAgree | gpu_storage.cuh:39-99 | in every reachable state all readers and the writer agree which side of a record is A and which is B, and a reader of B passes exactly when B is published |
| SerialEquivalence.TagMakesAvailable | gpu_storage.cuh:91-106 | the awaited tag has this epoch's number exactly when the write that the read follows is done |
| SerialEquivalence.LoadsSerialWord | gpu_storage.cuh:113-121 | every word that a read loads is the word of the serial run |
| SerialEquivalence.SelectKeepsInv | gpu_storage.cuh:37-107 | choosing the cell keeps the invariant |
| SerialEquivalence.LoadKeepsInv | gpu_storage.cuh:113-121 | loading a word, or finishing the read, keeps the invariant |
| SerialEquivalence.StoreKeepsInv | gpu_storage.cuh:367-384 | storing a word, or publishing the tag, keeps the invariant |
| SerialEquivalence.StepKeepsInv | gpu_storage.cuh:27-122 | every step of every unit keeps the invariant |
| SerialEquivalence.RunKeepsInv | gpu_storage.cuh:27-122 | every reachable state satisfies it |
| SerialEquivalence.ReadsAreSerial | gpu_storage.cuh:27-122 | at any moment of any run every unit has read what it reads in the serial run |
| SerialEquivalence.FinalContents | gpu_storage.cuh:321-385 | at the end of the epoch the newest side of every record holds the serial result |
| SerialEquivalence.FinalHandOff | gpu_storage.cuh:380-384 | the tags then satisfy what the next epoch needs: all older than it, and different unless never written |
| SerialEquivalence.EpochIsSerial | gpu_storage.cuh:321-385 | serial equivalence for every batch with a correct plan and every finished interleaving |
| Epochs.RunIsSerial | gpu_storage.cuh:334-354 | over any number of epochs memory holds the serial result of all batches, and the sides stay agreed upon |
| Epochs.ZeroMemoryHandsOff | gpu_allocator.cu:12-18 | freshly allocated memory is a valid start |
| Progress.SpinsWaitBackwards | gpu_storage.cuh:91-106 | a spin waits for one write, made by a smaller unit or earlier by the same unit, and is passable exactly when that write is done |
| Progress.SmallestMoves | gpu_storage.cuh:91-106 | the smallest unfinished unit is never held up |
| Progress.TotalShrinks | gpu_storage.cuh:27-122 | every move takes at least one off the steps left to all units together |
| Tickets.LaunchCoversUnits | benchmarks/tpcc_gpu_executor.cu:429-431 | the launch configuration has a warp for every unit |
| Tickets.SomethingMoves | benchmarks/tpcc_gpu_executor.cu:311-329 | with two-level tickets and any positive number of resident blocks, in an unfinished epoch a block can become resident or draw its tickets, a warp can take its ticket or a started unit can move |
| Tickets.MeasureShrinks | benchmarks/tpcc_gpu_executor.cu:311-329 | every arrival, draw, ticket and move brings the end nearer |
| Tickets.KernelRunInv | benchmarks/tpcc_gpu_executor.cu:296-385 | every state of a kernel run satisfies the invariant, and n events have used up n of the measure |
| Tickets.KernelEndsSerially | benchmarks/tpcc_gpu_executor.cu:296-434 | every run of the kernel is bounded, and where nothing can happen all units are finished and memory is the serial result |
| Tickets.StridedEndsSerially | benchmarks/tpcc_cpu_executor.cpp:106-141 | every run of any number of strided threads is bounded, and where no thread can do anything but spin all units are finished and memory is the serial result |
| DeviceExecution.Device.constructor | gpu_storage.cuh:27-122 | the device starts in the machine's initial state |
| DeviceExecution.Device.Launch | benchmarks/ycsb_gpu_executor.cu:415-446 | a new launch starts all units and keeps storage |
| DeviceExecution.Device.LoadVersion | gpu_storage.cuh:42-47 | loads a version tag |
| DeviceExecution.Device.ChooseReadCell | gpu_storage.cuh:37-107 | the branches of the read pick the machine's cell, and wait exactly where it waits |
| DeviceExecution.Device.ChooseWriteCell | gpu_storage.cuh:332-362 | the branches of the write pick the machine's cell |
| DeviceExecution.Device.StepUnit | gpu_storage.cuh:27-122 | one step of a warp on mutable storage is the machine's step |
| DeviceExecution.Device.Execute | benchmarks/tpcc_gpu_executor.cu:389-434 | however the units are picked the epoch ends, with serial contents and a valid hand-off |
| CpuStorage.WithoutSlotReads | storage.h:40-154 | if no read is sent to a version slot, the CPU form reads serially in every run |
| CpuStorage.SlotReadGoesWrong | storage.h:151-153 | one read of a version slot is enough for some rows, lanes and run to read what no serial run reads |
| CpuStorage.CpuSerialIffNoSlotReads | storage.h:125-154 | the CPU form reads serially for all rows, lanes and runs exactly when no read is sent to a version slot |
| CpuStorage.SlotReadIffBetweenWrites | gpu_execution_planner.cu:119-146 | a correct plan sends a read to a version slot exactly when the read lies between two writes of its record |
| CpuStorage.CpuSerialIffNoReadBetweenWrites | storage.h:125-154 | said of the batch: the CPU form reads serially exactly when no read lies between two writes of its record |
| CpuStorage.CpuThreadsEnd | benchmarks/tpcc_cpu_executor.cpp:106-141 | every run of the strided threads on the CPU form ends too |
| YcsbSubmitter.CountsWhatIsEmitted | benchmarks/ycsb_gpu_submitter.cu:30-53 | for every operation and both table forms the first pass counts what the second emits |
| YcsbSubmitter.EmittedByTxn | benchmarks/ycsb_gpu_submitter.cu:57-150 | a thread's accesses are its transaction's contiguous part of the batch |
| Offsets.RangesTile | benchmarks/ycsb_gpu_submitter.cu:164-170 | for any counts the threads' ranges start at 0, end at the total, and every place is in exactly one |
| YcsbSubmitter.CountTxnOps | benchmarks/ycsb_gpu_submitter.cu:19-55 | the counting loop counts the accesses that the second pass will emit |
| YcsbSubmitter.PrepareSubmit | benchmarks/ycsb_gpu_submitter.cu:19-55 | every transaction's count is the length of its range |
| Offsets.InclusiveSum | benchmarks/tpcc_gpu_submitter.cu:379-406 | the offsets, stored one place further on, are where the ranges begin |
| Offsets.LastOffsetFits | gpu_execution_planner.cu:28-55 | the entry behind the last offset is inside the allocation exactly where the number of transactions is no multiple of 32 |
| Offsets.WriteParts | benchmarks/tpcc_gpu_submitter.cu:327-356 | in whatever order the threads write their parts, the buffer holds them in thread order |
| YcsbSubmitter.SubmitTxn | benchmarks/ycsb_gpu_submitter.cu:57-150 | a thread writes its accesses from its offset on and nothing else |
| YcsbSubmitter.SubmitPiece | benchmarks/ycsb_gpu_submitter.cu:70-148 | one operation's accesses are written, in every branch |
| YcsbSubmitter.Submit | benchmarks/ycsb_gpu_submitter.cu:154-176 | in whatever order the threads run, the buffer holds the batch |
| YcsbSubmitter.SortedByRecordThenTxn | gpu_execution_planner.cu:216-218 | sorting on the record bits alone orders by record, then transaction, then program order |
| YcsbEpoch.PieceDoesWhatIsEmitted | benchmarks/ycsb_gpu_executor.cu:130-329 | plan completeness: in both kernels a piece makes exactly the accesses submitted for it, and looks for each location in the word that the access names |
| YcsbEpoch.PieceTouches | benchmarks/ycsb_gpu_executor.cu:130-329 | which rows a piece reads and which it writes: all fields or the one of the operation, by the type of the operation and the table form |
| YcsbEpoch.ExecutedMatchesBatch | benchmarks/ycsb_gpu_executor.cu:130-329 | the accesses of all pieces are, one by one, the submitted ones |
| YcsbEpoch.JobIsWellFormed | benchmarks/ycsb_gpu_executor.cu:149-161 | ten pieces per transaction, numbered in transaction order, own the accesses of the batch |
| YcsbEpoch.WordsIncrease | benchmarks/ycsb_txn.h:34-78 | through the whole batch the plan words increase, although the plans of an operation are a union |
| YcsbEpoch.BatchIsAddressable | benchmarks/ycsb_gpu_submitter.cu:68-149 | every access has a plan word of its own inside the plans |
| YcsbEpoch.YcsbIsReady | benchmarks/ycsb_gpu_executor.cu:130-329 | what the planner leaves meets all requirements of the serial-equivalence theorem |
| YcsbEpoch.RunEpoch | benchmarks/ycsb_gpu_executor.cu:415-446 | a YCSB epoch from submission to memory: the serial result in every interleaving |
| TpccSubmitter.CountsWhatIsEmitted | benchmarks/tpcc_gpu_submitter.cu:84-184 | for all five transaction types and every table the first pass counts what the second emits |
| TpccSubmitter.ExecutesWhatIsEmitted | benchmarks/tpcc_gpu_executor.cu:30-278 | plan completeness: table by table the executor makes exactly the submitted accesses, in order, and looks into the words they name; which rows those are is said by the members of TpccProgram |
| TpccProgram.NewOrderHead | benchmarks/tpcc_gpu_executor.cu:54-74 | which rows a NewOrder accesses before its items, whether it writes them, and in which plan words it looks |
| TpccProgram.NewOrderItem | benchmarks/tpcc_gpu_executor.cu:76-112 | for item l: the item's and the stock row are read, the stock row and the order line of that item are written |
| TpccProgram.PaymentTouches | benchmarks/tpcc_gpu_executor.cu:143-176 | a Payment reads and writes its warehouse, its district and its customer, in turn |
| TpccProgram.OrderStatusReads | benchmarks/tpcc_gpu_executor.cu:183-191 | an OrderStatus reads the customer, the order and then each of its order lines once |
| TpccProgram.StockLevelReads | benchmarks/tpcc_gpu_executor.cu:265-268 | a StockLevel reads each of its stock rows once |
| TpccProgram.DeliveryTouches | benchmarks/tpcc_gpu_executor.cu:198-253 | for entry e: the new-order entry and the order are read, the order is written, each line is read and written, and so is the customer, where the number of lines of the entries before e says |
| TpccSubmitter.ProgramWords | benchmarks/tpcc_txn.h:87-212 | no two accesses of a transaction share a plan word, and every word fits the plan and a packed offset |
| TpccEpoch.TpccJobIsWellFormed | benchmarks/tpcc_gpu_executor.cu:320-384 | the transactions own the accesses of the batch, in order |
| TpccEpoch.ExecutedIsSubmitted | benchmarks/tpcc_gpu_submitter.cu:217-325 | over the batch, the accesses executed on a table are the accesses submitted for it |
| TpccEpoch.AllWordsDiffer | benchmarks/tpcc_gpu_submitter.cu:217-325 | over all tables and transactions no plan word is used twice |
| TpccEpoch.BatchIsAddressable | gpu_execution_planner.cu:181-184 | every table's batch meets the planner's requirements |
| TpccEpoch.OneMoreTable | gpu_execution_planner.cu:181-184 | the next table's planner adds its plan and keeps those of the tables before it |
| TpccEpoch.TpccIsReady | benchmarks/tpcc_gpu_executor.cu:30-278 | the eight planners together meet all requirements of the serial-equivalence theorem |
| TpccEpoch.CountOps | benchmarks/tpcc_gpu_submitter.cu:84-184 | every thread's count is what it will write into the table's buffer |
| TpccEpoch.SubmitTable | benchmarks/tpcc_gpu_submitter.cu:327-356 | counts, offsets and second pass: in whatever order the threads run, a table's buffer holds the table's batch |
| TpccEpoch.SubmitTables | benchmarks/tpcc_gpu_submitter.cu:327-360 | so all planners are loaded with their batches |
| TpccEpoch.PlanTables | gpu_execution_planner.cu:188-296 | after all planners have run, every table's plan is in the plans |
| TpccEpoch.RunEpoch | benchmarks/tpcc_gpu_executor.cu:389-434 | a TPC-C epoch from submission to memory, with the Delivery shortcut: the serial result in every interleaving |
| SerialRows.WrittenIs | benchmarks/tpcc_gpu_executor.cu:28-258 | what a serial access writes is, word by word, what its transaction's lanes compute from what it has read by then |
| SerialWords.TxnHolds | benchmarks/tpcc_gpu_executor.cu:28-258 | the accesses and lanes of a transaction do to every word of the database what TxnWord says of the transaction as a whole |
| SerialWords.WordsHold | benchmarks/tpcc_gpu_executor.cu:28-258 | so before every transaction of a serial batch every word is what the transactions before it make of it |
| TpccWords.Kept | benchmarks/tpcc_gpu_executor.cu:28-258 | a word that no transaction may change is kept |
| TpccWords.QuantityIs | benchmarks/tpcc_gpu_executor.cu:82-88 | a stock quantity is what it was, with all orders for the row deducted by Epic's rule in batch order |
| TpccWords.TotalIs | benchmarks/tpcc_gpu_executor.cu:143-176 | w_ytd, d_ytd, c_balance, c_ytd_payment, c_payment_cnt and c_delivery_cnt are what they were, changed by what the Payments and Deliveries add up to, modulo 2^32 |
| TpccWords.NextOrderIdIs | benchmarks/tpcc_gpu_executor.cu:57-65 | a district has the next order id of its last NewOrder |
| TpccWords.CarrierIs | benchmarks/tpcc_gpu_executor.cu:204-212 | an order has the carrier of its last Delivery, unless it has been placed again since |
| TpccWords.DeliveryDateIs | benchmarks/tpcc_gpu_executor.cu:217-232 | an order line has the date of its last Delivery, unless it has been ordered again since |
| TpccWords.LineIs | benchmarks/tpcc_gpu_executor.cu:90-112 | an order line has the item, the quantity, as amount too, and the warehouse of what was ordered under it last |
| TpccWords.OrderRowIs | benchmarks/tpcc_gpu_executor.cu:67-74 | an order and its new-order entry get the words of the customer's row |
| EpochWords.EpochLeaves | benchmarks/tpcc_gpu_executor.cu:389-434 | after every finished run of an epoch, in every interleaving, every word is what the transactions make of it one after the other |
| EpochWords.EpochStock | benchmarks/tpcc_gpu_executor.cu:82-88 | after every finished run a stock row has lost all orders of the batch for it, in batch order: the right quantity, except that it is 101 where 10 is right |
| EpochWords.EpochTotal | benchmarks/tpcc_gpu_executor.cu:143-176 | after every finished run every total and counter has changed by what the batch's Payments and Deliveries add up to, modulo 2^32 |
| EpochWords.EpochKeeps | benchmarks/tpcc_gpu_executor.cu:28-258 | after every finished run a word that none of the transactions may change is as it was |
| EpochWords.OrderStatusSees | benchmarks/tpcc_gpu_executor.cu:180-192 | in every interleaving an OrderStatus sees the customer, the order and the order's lines as the transactions before it left them |
| EpochWords.StockLevelCounts | benchmarks/tpcc_gpu_executor.cu:258-278 | in every interleaving a StockLevel counts the stock rows that are low once the orders of the transactions before it have been deducted |
| InOrder.ReadBegins | gpu_storage.cuh:37-107 | in the run that goes unit by unit a read is never held up, if only it is sent to where the write before it was sent |
| InOrder.BothBecomeTagged | gpu_storage.cuh:332-384 | the second write that is sent to B of a record tags the record's other side |
| InOrder.InOrderSchedule | gpu_storage.cuh:27-122 | that run exists, publishes every write where it was sent, and tags both sides of a record with two writes to B |
| ShortcutFails.HeldUpInRun | gpu_storage.cuh:91-106 | a read of a version slot that nobody writes is passed in no run |
| ShortcutFails.RerouteFails | benchmarks/tpcc_gpu_executor.cu:230-231 | a write that is sent to B although a later write of the record follows spoils every such epoch: no run ends, or one leaves a memory that is no start for the next epoch |
| ShortcutFails.ShortcutWorksIff | benchmarks/tpcc_gpu_executor.cu:230-231 | for all rows and lanes: with the shortcut the epoch can end and every run that ends is serial exactly when no delivered line is written later in the batch |
| ShortcutFails.ShortcutLeavesStaleLine | benchmarks/tpcc_gpu_executor.cu:230-231 | otherwise, with telltale rows and lanes, no run ends or some run leaves a row other than the serial one |
| DeliveryShortcut.OrderLineWriter | benchmarks/tpcc_gpu_executor.cu:110-231 | only a NewOrder's items and a Delivery's lines write order lines |
| DeliveryShortcut.NoLaterTxn | benchmarks/tpcc_txn_gen.h:63-79 | no later transaction of the epoch writes a delivered line |
| DeliveryShortcut.NotTwice | benchmarks/tpcc_gpu_executor.cu:217-232 | a Delivery writes each line once |
| DeliveryShortcut.GeneratedBatchesDeliverLast | benchmarks/tpcc_gpu_executor.cu:230-231 | every epoch of every generated run meets the shortcut's condition |
| TpccGenerator.IdsGrow | benchmarks/tpcc_txn_gen.cpp:42 | an order is older than transaction i exactly when its id is at most the district's newest id at i |
| TpccGenerator.DeliveredOnce | benchmarks/tpcc_txn_gen.h:71-79 | a warehouse's Deliveries have increasing order ids |
| TpccGenerator.DeliveredAfterOrdered | benchmarks/tpcc_txn_gen.h:71-79 | an order is delivered only after the transaction that placed it |
| TpccGenerator.NewestIsPlaced | benchmarks/tpcc_txn_gen.cpp:106-112 | a customer's newest order is one that the customer placed or began with |
| TpccGenerator.NewestIsLargest | benchmarks/tpcc_txn_gen.cpp:106-112 | no order that the customer has placed by then has a larger id |
| TpccGenerator.TpccOIdGenerator.constructor | benchmarks/tpcc_txn_gen.h:46-56 | the counters describe the empty history |
| TpccGenerator.TpccOIdGenerator.NewOrder | benchmarks/tpcc_txn_gen.cpp:37-44 | the counters keep describing the history, which grows by a NewOrder with the right id |
| TpccGenerator.TpccOIdGenerator.OrderStatus | benchmarks/tpcc_txn_gen.cpp:106-112 | the same, with the district's newest id |
| TpccGenerator.TpccOIdGenerator.StockLevel | benchmarks/tpcc_txn_gen.cpp:122-128 | the same, with the district's newest id |
| TpccGenerator.TpccOIdGenerator.Delivery | benchmarks/tpcc_txn_gen.h:71-79 | succeeds exactly when every district has a newer order, and then extends the history |
| BatchIndex.CustomerBitsInjective | benchmarks/tpcc_gpu_aux_index.cu:42-64 | within the benchmark's ranges, warehouse 64 included, the packed customer is unambiguous |
| BatchIndex.RangeIsCustomer | benchmarks/tpcc_gpu_aux_index.cu:225-233 | the queried key range holds exactly the customer's orders up to the bound |
| BatchIndex.BoundExcludesLater | benchmarks/tpcc_txn_gen.cpp:111 | the bound taken at generation hides the orders of later transactions, whichever of them are in the index already |
| BatchIndex.OrderStatusIsSerial | benchmarks/tpcc_gpu_aux_index.cu:223-258 | whatever orders of the epoch are in the tree besides the earlier ones, the next key after the bound is that of the newest order placed before the query in generation order, and no other key is |
| BatchIndex.DistrictIdx | benchmarks/tpcc_gpu_aux_index.cu:151-152 | different orders have different cache slots |
| BatchIndex.CacheHasNewest | benchmarks/tpcc_gpu_aux_index.cu:249-256 | the cache has the items of that newest order |
| BatchIndex.CacheHasOrder | benchmarks/tpcc_gpu_aux_index.cu:262-283 | the cache has the items and the customer of every id handed out so far |
| BatchIndex.PlacedOrderIs | benchmarks/tpcc_gpu_aux_index.cu:262-283 | the items and the customer of an order placed by a transaction are those of that transaction |
| BatchIndex.NewestItemsAre | benchmarks/tpcc_gpu_aux_index.cu:249-256 | the items found for a customer's newest order are that order's, and the order is the customer's own |
| BatchIndex.LoadServesEveryRun | benchmarks/tpcc_gpu_aux_index.cu:371-420 | the initial load is right for every run to come |
| BatchIndex.AuxIndex.constructor | benchmarks/tpcc_gpu_aux_index.cu:363-420 | after the nested loading loops tree and cache, item ids included, hold exactly the initial orders |
| BatchIndex.AuxIndex.InsertTxnUpdate | benchmarks/tpcc_gpu_aux_index.cu:143-165 | tree and cache then hold one more transaction's order and its items, or are as before |
| BatchIndex.AuxIndex.InsertTxnUpdates | benchmarks/tpcc_gpu_aux_index.cu:108-174 | in whatever order the threads insert them, the index holds all orders of the epoch |
| BatchIndex.AuxIndex.FindNext | benchmarks/tpcc_gpu_aux_index.cu:235-237 | the smallest key within the bounds |
| BatchIndex.AuxIndex.OrderStatus | benchmarks/tpcc_gpu_aux_index.cu:223-258 | returns the customer's newest order as of the query's own place in generation order, and its item count |
| BatchIndex.AuxIndex.Delivery | benchmarks/tpcc_gpu_aux_index.cu:259-286 | fills in, for all ten districts, what the delivered order has as of the Delivery's own place |
| BatchIndex.RecentHas | benchmarks/tpcc_gpu_aux_index.cu:291-303 | the gathered ids are exactly those of the items of the last orders |
| BatchIndex.AuxIndex.GatherItems | benchmarks/tpcc_gpu_aux_index.cu:287-303 | gathers the items of the district's last twenty orders as of the StockLevel's own place, though later orders are in the cache |
| RowIndex.ValidHasAll | benchmarks/tpcc_gpu_index.cu:1000-1008 | compaction keeps exactly the valid keys |
| RowIndex.TableIndex.constructor | benchmarks/tpcc_gpu_index.cu:863-921 | the loaded keys have rows 0, 1, 2 and so on, and the free rows follow them |
| RowIndex.TableIndex.SelectValid | benchmarks/tpcc_gpu_index.cu:1000-1008 | the compacted buffer holds the valid keys in order |
| RowIndex.OneMoreInserted | benchmarks/tpcc_gpu_index.cu:1021-1029 | a thread that inserts its pair keeps what has been inserted right, whichever threads were before it |
| RowIndex.TableIndex.Insert | benchmarks/tpcc_gpu_index.cu:1021-1032 | in whatever order the threads insert: every key is found afterwards and no other new one, no two keys share a row, no key moves, and a new key has the free row that it was paired with |
| RowIndex.TableIndex.IndexBatch | benchmarks/tpcc_gpu_index.cu:984-1032 | the same for the valid keys of a batch, new keys getting rows from the old free start on |
| TpccKeys.InitialKeys | benchmarks/tpcc_gpu_index.cu:863-891 | the nested loops list the initial orders, new orders and order lines, each at its place |
| TpccKeys.LoadedOnce | benchmarks/tpcc_gpu_index.cu:863-891 | no key is loaded twice |
| TpccKeys.RoomForEpoch | benchmarks/tpcc_config.h:61-72 | in each of the configured epochs the rows loaded and used so far and those of the epoch fit all three tables |
| TpccKeys.BatchAddsKeys | benchmarks/tpcc_gpu_index.cu:30-76 | the keys that the threads put into the insert buffers are exactly those of the batch's orders and their lines |
| TpccIndex.TpccGpuIndex.constructor | benchmarks/tpcc_gpu_index.cu:863-921 | the index holds exactly the initial keys, under different rows |
| TpccIndex.TpccGpuIndex.PrepareIndex | benchmarks/tpcc_gpu_index.cu:78-106 | one order, one new order and fifteen line slots for each transaction, empty where it places no order |
| TpccIndex.TpccGpuIndex.InsertBatch | benchmarks/tpcc_gpu_index.cu:984-1032 | in every epoch of the run the free rows suffice, the index then holds exactly the keys placed so far, nothing moves, and every row id is below its table's size |
| TpccIndex.NewestHasKeys | benchmarks/tpcc_gpu_index.cu:343-379 | the order that an OrderStatus is about and all of its lines are in the index |
| TpccIndex.OrderHasKeys | benchmarks/tpcc_gpu_index.cu:387-458 | so are the orders that a Delivery is about, their new-order entries and their lines |
| TpccIndex.TpccGpuIndex.IndexNewOrder | benchmarks/tpcc_gpu_index.cu:141-274 | a NewOrder gets the rows of its warehouse, district, customer, order and new-order entry, and for each item the item's row, the stock row in the supplying warehouse and the row of that item's order line; no lookup fails |
| TpccIndex.TpccGpuIndex.IndexPayment | benchmarks/tpcc_gpu_index.cu:278-325 | a Payment gets the rows of its warehouse and district, and of the customer in the customer's own warehouse and district |
| TpccIndex.TpccGpuIndex.IndexOrderStatus | benchmarks/tpcc_gpu_index.cu:325-381 | an OrderStatus gets the customer's row, the row of the customer's newest order as of its own place and the rows of that order's lines |
| TpccIndex.TpccGpuIndex.IndexDelivery | benchmarks/tpcc_gpu_index.cu:383-466 | a Delivery gets, for all ten districts, the rows of the delivered order, of its new-order entry, of its lines and of its customer as they were placed before it |
| IndexedEpochs.ParamsFit | benchmarks/tpcc_txn.h:87-212 | what indexing yields fits the parameter structures |
| IndexedEpochs.IndexedBatchesAreFine | benchmarks/tpcc_gpu_executor.cu:230-231 | every indexed batch of a generated run fits, and its Deliveries are the last to write their lines |
| IndexedEpochs.IndexTxns | benchmarks/tpcc.cpp:393-420 | an epoch's orders are inserted, then every transaction gets the rows that it is about when the transactions run one after the other |
| IndexedEpochs.IndexRun | benchmarks/tpcc.cpp:338-420 | from the initial load on, all epochs of the run can be indexed, with row ids below the table sizes |
| TpccRun.BatchesFit | benchmarks/tpcc.cpp:77-94 | if the mix of an epoch's transaction types fits the planners' buffers, so do its batches |
| IndexedEpochs.Indexes.constructor | benchmarks/tpcc.cpp:331-336 | after the load both indexes hold the initial orders |
| IndexedEpochs.Indexes.IndexNext | benchmarks/tpcc.cpp:395-420 | the next epoch is indexed, its rows being those of the serial run |
| TpccRun.ExecuteEpoch | benchmarks/tpcc.cpp:466-618 | an indexed epoch is submitted, planned and executed with the serial result |
| TpccRun.RunBenchmark | benchmarks/tpcc.cpp:338-621 | the whole run: every epoch is indexed, and memory ends up as if all batches had been run one after the other, transaction by transaction |
| TpccRun.RunBalance | benchmarks/tpcc_gpu_executor.cu:234-256 | over the whole run a customer's balance loses what the customer pays and gains nothing from what is delivered |
| TpccRun.RunLeaves | benchmarks/tpcc.cpp:338-621 | over the whole run every word is what the transactions of all batches make of it one after the other |
| TpccRun.RunStock | benchmarks/tpcc_gpu_executor.cu:82-88 | over the whole run a stock row has lost the orders of all batches for it, in order, by Epic's rule |
| OrderIds.RunNextOrderId | benchmarks/tpcc_gpu_index.cu:171 | after any number of epochs of a generated run every district has the id of its newest order |
| StockLevel.DistinctIsExact | benchmarks/tpcc_gpu_index.cu:519-538 | from a nondecreasing list exactly the distinct items remain, each once, in order |
| StockLevel.IndexStockLevel | benchmarks/tpcc_gpu_index.cu:513-541 | the in-place loop leaves the stock rows of the kept items in front, for every list, and overwrites no entry that it has yet to read |
| StockLevel.SortedIsSorted | benchmarks/tpcc_gpu_aux_index.cu:305-315 | the sorted ids are the gathered ones in nondecreasing order |
| StockLevel.SeenIsExact | benchmarks/tpcc_gpu_aux_index.cu:287-340 | a StockLevel looks at exactly the items of the last twenty orders, each once |
| StockLevel.IndexTxn | benchmarks/tpcc_gpu_aux_index.cu:287-340 | gathering, sorting and the in-place loop leave the stock rows of the items that the StockLevel sees when the transactions run one after the other |
| YcsbGenerator.KeysDiffer | benchmarks/ycsb.cpp:152-175 | no two operations of a transaction have the same key |
| YcsbGenerator.KeyGenerator.GenerateTxn | benchmarks/ycsb.cpp:148-177 | the redraw loop keeps the history right: an INSERT takes the next key, another operation an existing one that its transaction does not have yet, and each keeps its drawn type and field |
| YcsbGenerator.InsertsAreConsecutive | benchmarks/ycsb.cpp:152-157 | the keys that a batch inserts are the next ones, in order |
| YcsbGenerator.YcsbGpuIndex.InsertBatch | benchmarks/ycsb_gpu_index.cu:173-199 | so every key gets itself as its row, over any number of epochs |
| YcsbGenerator.YcsbGpuIndex.FindTxn | benchmarks/ycsb_gpu_index.cu:58-84 | the loop over ten operations finds each operation's row and copies its type and its field |
| YcsbGenerator.YcsbGpuIndex.IndexTxns | benchmarks/ycsb_gpu_index.cu:173-206 | every operation of every transaction keeps its type and its field and finds the row of its key, which no other key has |
| YcsbGenerator.RowsFitIff | benchmarks/ycsb_gpu_index.cu:166 | the row ids fit the table exactly as long as there are no more records than rows |
| Money.PaymentBalances | benchmarks/tpcc_gpu_executor.cu:143-159 | a payment keeps every warehouse's total equal to the sum of its districts' totals modulo 2^32 |
| Money.BatchBalances | benchmarks/tpcc_gpu_executor.cu:57-65 | so does every serial batch of all five transaction types |
| Money.ExecutorsLanesOk | benchmarks/tpcc_gpu_executor.cu:57-65 | what the executor's lanes write: a Payment adds its amount to both totals, a NewOrder copies the district's total that it has read |
| Money.EpochBalances | benchmarks/tpcc_gpu_executor.cu:143-159 | so does every finished run of an epoch, in every interleaving (clause 3.3.2.1 of TPC-C) |
| Money.RunBalances | benchmarks/tpcc.cpp:338-342 | and so over any number of epochs |
| DeliveryBalance.OthersAddNothing | benchmarks/tpcc_gpu_executor.cu:216-224 | every lane but that of the amount adds up nothing |
| DeliveryBalance.AmountsHold | benchmarks/tpcc_gpu_executor.cu:91-101 | in the serial run a line's amount is the quantity last ordered under it, Deliveries included |
| DeliveryBalance.LinesDelivered | benchmarks/tpcc_gpu_executor.cu:217-232 | after the lines of an entry the lane of the amount has added up what they come to, modulo 2^32, and no line's amount has changed |
| DeliveryBalance.SerialBalance | benchmarks/tpcc_gpu_executor.cu:160-178 | a customer's balance in the serial run: less all payments, plus all deliveries if the lane whose sum is added is that of the amount |
| DeliveryBalance.ShuffledBalance | benchmarks/tpcc_gpu_executor.cu:234-247 | with the result of the shuffle every customer would have the intended balance |
| DeliveryBalance.EpochBalance | benchmarks/tpcc_gpu_executor.cu:234-256 | as the code is, after every finished run of an epoch a balance is what it was less the customer's payments, modulo 2^32 |
| DeliveryBalance.BalanceIsIntendedIff | benchmarks/tpcc_gpu_executor.cu:234-256 | that is the intended balance exactly when the amounts delivered to the customer come to 0 modulo 2^32 |
| DeliveryBalance.DeliveryIsNotAdded | benchmarks/tpcc_gpu_executor.cu:191-258 | a Delivery that leaves a customer the balance 0 where it should be 5 |
| Retry.RunsExactlyOnce | benchmarks/micro_executor.h:52-85 | over any number of epochs every transaction runs once in its own epoch, once more in the next one exactly when it aborts and there is a next one, and never else |
| Retry.MicroWordsDiffer | benchmarks/micro_submitter.h:54-58 | the twenty accesses of a ticket have different plan words |
| MicroEpoch.CountIsRight | benchmarks/micro_submitter.h:15-33 | the first pass counts what the second submits, also for transactions that are not retried |
| MicroEpoch.TicketDoesWhatIsSubmitted | benchmarks/micro_executor.h:71-80 | plan completeness: a ticket makes exactly the accesses that are submitted for it, and looks into the words they name |
| MicroEpoch.TicketTouches | benchmarks/micro_executor.h:71-80 | which record a ticket's accesses are of: the i-th of its transaction, of the batch before if it is a retry, is read and then written |
| MicroEpoch.BatchIsAddressable | benchmarks/micro_submitter.h:54-58 | over all tickets no plan word is used twice |
| MicroEpoch.MicroIsReady | benchmarks/micro_executor.h:41-86 | what the planner leaves meets all requirements of the serial-equivalence theorem |
| MicroEpoch.RunEpoch | benchmarks/micro.cu:97-181 | an epoch of retried and current transactions from submission to memory: the serial result in every interleaving |
| MicroRun.EpochTxnData.constructor | benchmarks/micro.h:28-35 | a new buffer has no retry flag set |
| MicroRun.MicroBenchmark.constructor | benchmarks/micro.h:28-35 | the two buffers share nothing |
| MicroRun.MicroBenchmark.IndexTxns | benchmarks/micro_index.h:23-59 | the current and the retried transactions have the records of their keys |
| MicroRun.MicroBenchmark.StepTicket | benchmarks/micro_executor.h:50-85 | one step of a warp: its ticket has run when its last access is made, and then sets the current batch's flag |
| MicroRun.MicroBenchmark.MicroExec | benchmarks/micro_executor.h:50-85 | however the tickets are interleaved, those that should run have run once each, the current batch's flags are set, and memory is the serial one |
| MicroRun.MicroBenchmark.ExecutePending | benchmarks/micro.cu:130-181 | memory, log and flags go through an epoch as in the serial run of what is pending |
| MicroRun.MicroBenchmark.RunBenchmark | benchmarks/micro.cu:97-181 | reusing buffer epoch mod 2 loses and repeats nothing: the log is the runs that should happen, and memory is as if, epoch by epoch, the retried transactions and then the batch had run one after the other |
| GaccoPlanner.FirstOfRow | gacco/gpu_execution_planner.cu:115-118 | a row's first sorted entry is where its list begins |
| GaccoPlanner.RunBase | gacco/gpu_execution_planner.cu:141-173 | a run of equal rows begins where the row's list does |
| GaccoPlanner.RunsIncrease | gacco/gpu_execution_planner.cu:141-144 | the runs are of different rows |
| GaccoPlanner.RunsFit | gacco/gpu_execution_planner.cu:85-90 | there are no more different rows in a batch than the table has records |
| GaccoPlanner.RoomForRun | gacco/gpu_execution_planner.cu:85-90 | in sorted order a new run always finds room in arrays of one entry per record |
| GaccoPlanner.RunLengthEncode | gacco/gpu_execution_planner.cu:141-144 | the run lengths spell out the sorted rows, in runs as long as possible, in arrays of one entry per record |
| GaccoPlanner.ExclusiveSum | gacco/gpu_execution_planner.cu:172-173 | every run's offset is where it begins |
| GaccoPlanner.GpuTableExecutionPlanner.constructor | gacco/gpu_execution_planner.cu:62-103 | all arrays are separate, those of the runs with one entry per record |
| GaccoPlanner.GpuTableExecutionPlanner.SortSubmitted | gacco/gpu_execution_planner.cu:115-118 | sorting groups the names of a row |
| GaccoPlanner.GpuTableExecutionPlanner.CopyAccessTid | gacco/gpu_execution_planner.cu:36-44 | the access list has the names of the sorted entries |
| GaccoPlanner.GpuTableExecutionPlanner.BuildAuxArray | gacco/gpu_execution_planner.cu:46-58 | every accessed row gets its offset and first holder, and no other row is touched |
| GaccoPlanner.GpuTableExecutionPlanner.EncodeRuns | gacco/gpu_execution_planner.cu:141-173 | rows, counts and offsets of the runs |
| GaccoPlanner.GpuTableExecutionPlanner.InitializeExecutionPlan | gacco/gpu_execution_planner.cu:105-183 | every row's names stand in submission order from its offset on, the first is the holder, and rows without accesses are kept |
| Locks.SectionStart | gacco/benchmarks/tpcc_gpu_executor.cu:43-52 | before every use or release of a lock its unit took it, at the matching place of the row's list |
| Locks.ListNamesUnit | gacco/benchmarks/tpcc_gpu_executor.cu:45-48 | the name that a row's lock should show at an act is that of the act's unit |
| Locks.HolderIsNext | gacco/benchmarks/tpcc_gpu_executor.cu:43-52 | a unit with the lock is the next to act on the row |
| Locks.NamedIsNext | gacco/benchmarks/tpcc_gpu_executor.cu:21-41 | a unit that finds itself named is the next to act on the row, whatever stale names there are |
| LockSafety.LockStepKeepsInv | gacco/benchmarks/tpcc_gpu_executor.cu:21-52 | every step of every unit keeps the invariant, the half-done release included |
| LockSafety.LockRunKeepsInv | gacco/benchmarks/tpcc_gpu_executor.cu:21-52 | every reachable state satisfies it |
| LockSafety.ActsInTxnOrder | gacco/benchmarks/tpcc_gpu_executor.cu:21-52 | in every run the acts on a row happen in transaction order, so grants do |
| LockSafety.MutualExclusion | gacco/benchmarks/tpcc_gpu_executor.cu:21-52 | in every run at most one unit is inside a row's critical section |
| LockSafety.LockedRunIsSerial | gacco/benchmarks/tpcc_gpu_executor.cu:70-218 | a finished run has the rows and the local results of the serial run, of all that is done under locks |
| LockSafety.SmallestTakesLock | gacco/benchmarks/tpcc_gpu_executor.cu:21-41 | whatever locks are held, the smallest unfinished unit can take its next lock |
| LockDevice.StepsLeftShrink | gacco/benchmarks/tpcc_gpu_executor.cu:21-52 | every move brings the end nearer |
| LockDevice.SomebodyMoves | gacco/benchmarks/tpcc_gpu_executor.cu:21-41 | deadlock freedom: while a unit is unfinished, one can move |
| LockDevice.MoveUntilFinished | gacco/benchmarks/tpcc_gpu_executor.cu:220-255 | where nobody can move everybody is finished, and the rows are the serial ones |
| LockDevice.Threads.constructor | gacco/benchmarks/tpcc_gpu_executor.cu:281-292 | the threads start in the machine's initial state |
| LockDevice.Threads.PollLock | gacco/benchmarks/tpcc_gpu_executor.cu:21-41 | one poll lets the unit in exactly when the lock names it |
| LockDevice.Threads.AdvanceOffset | gacco/benchmarks/tpcc_gpu_executor.cu:45 | the row's offset is advanced and remembered by the releasing unit |
| LockDevice.Threads.HandOver | gacco/benchmarks/tpcc_gpu_executor.cu:46-49 | the lock gets the name at the remembered offset |
| LockDevice.Threads.StepThread | gacco/benchmarks/tpcc_gpu_executor.cu:21-52 | one step on mutable arrays is the machine's step |
| LockDevice.Threads.Execute | gacco/benchmarks/tpcc_gpu_executor.cu:281-292 | however the threads are picked the epoch ends, with the serial rows |
| LockTickets.LaunchCoversUnits | gacco/benchmarks/tpcc_gpu_executor.cu:286-289 | the launch configuration has a thread for every unit |
| LockTickets.SomethingMoves | gacco/benchmarks/tpcc_gpu_executor.cu:220-237 | with block tickets and any positive number of resident blocks, a block can become resident or draw its ids, or a unit of a block that has drawn can move |
| LockTickets.NextKeepsInv | gacco/benchmarks/tpcc_gpu_executor.cu:220-255 | every arrival, draw and step keeps the invariant and brings the end nearer |
| LockTickets.KernelEndsSerially | gacco/benchmarks/tpcc_gpu_executor.cu:220-292 | every run of the kernel is bounded, and where nothing can happen the rows are those of the serial run |
| LockNames.FinishFirst | gacco/benchmarks/ycsb_gpu_executor.cu:20-44 | the first m units can be run to their ends before anybody else starts |
| LockNames.SameNameBothInside | gacco/benchmarks/ycsb_gpu_executor.cu:106-140 | two units with one name that begin with the same lock can both be inside: the run is given |
| LockPrograms.ProgramIsBracketed | gacco/benchmarks/tpcc_gpu_executor.cu:125-216 | transactions that keep the lock discipline make a program that does |
| LockPrograms.NamesMakeLists | gacco/gpu_execution_planner.cu:36-58 | planners that get the names under which locks will be taken, in that order, build right lists |
| GaccoTpcc.CountsWhatIsListed | gacco/benchmarks/tpcc_gpu_submitter.cu:79-138 | both passes agree under every setting |
| GaccoTpcc.TxnTakesWhatIsListed | gacco/benchmarks/tpcc_gpu_executor.cu:70-218 | under every setting the executor takes in every table exactly the listed locks, in order, and gives all of them back |
| GaccoWork.TxnWorksOnWhatIsListed | gacco/benchmarks/tpcc_gpu_executor.cu:70-218 | under every setting a transaction works in every table on exactly the rows that it lists, in that order; each row's acts are one section of taking the lock, work and giving it back for each time that it is listed |
| GaccoWork.WorkIsInside | gacco/benchmarks/tpcc_gpu_executor.cu:120-216 | so every work lies between its row's own acquire and release, with no other act on the row between |
| Footprints.ListsWhatEpicTouches | gacco/benchmarks/tpcc_gpu_submitter.cu:79-138 | under full locking the rows listed are exactly the rows that Epic's executor accesses for the same transaction |
| Footprints.ItemListedFor | gacco/benchmarks/tpcc_gpu_submitter.cu:79-138 | entry l of a NewOrder's list of items, of stock and of order lines is what Epic accesses for item l |
| Footprints.AtomicLists | gacco/benchmarks/tpcc_gpu_submitter.cu:79-138 | in the atomic modes only the stock rows are listed, and none with compare-and-swap |
| GaccoTpcc.SubmittedAreNames | gacco/benchmarks/tpcc_gpu_submitter.cu:171-218 | over the batch each planner gets exactly the names under which its locks will be taken |
| GaccoTpcc.TpccLocksReady | gacco/benchmarks/tpcc_gpu_executor.cu:70-218 | every batch under every setting meets the protocol's requirements, a transaction that uses a stock row twice included |
| GaccoTpccEpoch.SubmitTable | gacco/benchmarks/tpcc_gpu_submitter.cu:171-218 | counts, offsets and second pass: in whatever order the threads run, a table's buffer holds the table's names |
| GaccoTpccEpoch.LoadTables | gacco/benchmarks/tpcc_gpu_submitter.cu:171-218 | so all planners are loaded with their names |
| GaccoTpccEpoch.PlanTables | gacco/gpu_execution_planner.cu:105-183 | all lists are built |
| GaccoTpccEpoch.RunEpoch | gacco/benchmarks/tpcc_gpu_executor.cu:220-292 | a GAccO TPC-C epoch from submission to the rows under locks: the serial result under every setting, in every interleaving |
| AtomicMoney.TotalsRunKeepsInv | gacco/benchmarks/tpcc_gpu_executor.cu:183-196 | no atomic update is lost: in every interleaving every word is what it was plus all that has been added to it, modulo 2^32 |
| AtomicMoney.AtomicTotalsAreSerial | gacco/benchmarks/tpcc_gpu_executor.cu:183-196 | a finished run of the atomic mode has the totals of running the Payments one after the other |
| AtomicMoney.AtomicTotalsBalance | gacco/benchmarks/tpcc_gpu_executor.cu:183-196 | and keeps a warehouse's total the sum of its districts' totals |
| MoneyPaths.AtomicTotalIs | gacco/benchmarks/tpcc_gpu_executor.cu:183-196 | a finished run of the atomic mode leaves every counter changed by all Payments, modulo 2^32 |
| MoneyPaths.ExecutorPays | gacco/benchmarks/tpcc_gpu_executor.cu:199-211 | what the executor does at each act under full locking makes a Payment's changes to its rows and no other to a counter |
| MoneyPaths.LockedTotalIs | gacco/benchmarks/tpcc_gpu_executor.cu:199-216 | a finished run under full locking leaves every counter changed by all Payments, modulo 2^32 |
| MoneyPaths.EnginesAgree | gacco/benchmarks/tpcc_gpu_executor.cu:172-218 | Epic's epoch, GAccO's locks and GAccO's atomic additions, each in an interleaving of its own, leave the same word in every total and counter |
| AtomicMoney.PaymentTotals.Step | gacco/benchmarks/tpcc_gpu_executor.cu:183-196 | one atomic update of memory is the machine's step |
| AtomicMoney.PaymentTotals.Execute | gacco/benchmarks/tpcc_gpu_executor.cu:183-196 | however the transactions are picked they end, with the serial totals |
| GaccoYcsb.YcsbLocksReady | gacco/benchmarks/ycsb_gpu_executor.cu:92-142 | the pieces meet the protocol's requirements as far as no two of a transaction share a row |
| GaccoYcsb.PieceLocks | gacco/benchmarks/ycsb_gpu_executor.cu:106-140 | a piece takes the lock of its own operation's row, works on that row and gives the lock back, under the name of its transaction |
| GaccoYcsb.ClashBreaksExclusion | gacco/benchmarks/ycsb_gpu_executor.cu:106-140 | for every batch in which a transaction uses a row twice, some run has two pieces inside the row's section |
| GaccoYcsb.ExclusiveIffRowsDistinct | gacco/benchmarks/ycsb_gpu_executor.cu:106-140 | mutual exclusion holds in every run exactly when no transaction uses a row twice |
| GaccoYcsb.GeneratedRowsDistinct | gacco/benchmarks/ycsb.cpp:112-139 | in a generated and indexed batch no transaction uses a row twice |
| GaccoYcsb.GeneratedIsExclusive | gacco/benchmarks/ycsb.cpp:112-139 | so in every run of every generated batch at most one piece is inside a row's section |
| LockStarvation.SerialSchedule | gacco/benchmarks/ycsb_gpu_executor.cu:20-44 | whatever names the units have, they can run one after the other |
| LockStarvation.Overtake | gacco/benchmarks/ycsb_gpu_executor.cu:36-44 | two pieces of one name let in together can leave the lock with their own name: the run is given |
| LockStarvation.StaysNamedInRun | gacco/benchmarks/ycsb_gpu_executor.cu:20-44 | after that no step of anybody changes the name |
| LockStarvation.ClashLocksOut | gacco/benchmarks/ycsb_gpu_executor.cu:106-140 | for every batch in which a transaction uses a row twice and a later one uses it too, some run locks the later one out, however it goes on |
| LockOut.TurnPasses | gacco/benchmarks/ycsb_gpu_executor.cu:36-44 | when the user whose turn it is hands the lock over, it is the turn of the row's next user, or of the waiting piece's transaction |
| LockOut.GroupStays | gacco/benchmarks/ycsb_gpu_executor.cu:20-44 | in a transaction's turn the lock keeps its name until all of its pieces on the row have been let in, whatever its pieces do at once |
| LockOut.CanGetIn | gacco/benchmarks/ycsb_gpu_executor.cu:20-44 | where no earlier transaction uses its row twice, a piece can be let in from every state of every run |
| LockOut.LockedOutIff | gacco/benchmarks/ycsb_gpu_executor.cu:106-140 | a piece can be locked out of its row for good exactly when an earlier transaction uses the row twice |
| GaccoYcsb.Submit | gacco/benchmarks/ycsb_gpu_submitter.cu:18-32 | place 10 t + i of the buffer holds the row of operation i of transaction t, with the transaction's id |
| GaccoYcsb.RunEpoch | gacco/benchmarks/ycsb_gpu_executor.cu:146-158 | a GAccO YCSB epoch with distinct rows per transaction: the serial rows in every interleaving |
| Stock.SellIsSubtraction | gacco/benchmarks/tpcc_gpu_executor.cu:113-116 | modulo 91 the update rule of clause 2.4.2.2 of TPC-C is subtraction |
| Stock.Sell | gacco/benchmarks/tpcc_gpu_executor.cu:113-116 | with quantities in 10 to 100 and orders up to 10 the quantity stays in 10 to 100, in 32-bit arithmetic |
| Stock.SellInAnyOrder | gacco/benchmarks/tpcc_gpu_executor.cu:94-118 | any two orders of the same multiset of orders leave the same quantity |
| Stock.RulesDifferIff | benchmarks/tpcc_gpu_executor.cu:85 | for all 32-bit values, Epic's GPU rule differs from the other exactly where the quantity is the order plus 10, and only there leaves the range |
| Stock.EpicSellIs | benchmarks/tpcc_gpu_executor.cu:85 | over any orders Epic's GPU quantity is the right one, except that it is 101 where 10 is right |
| Stock.LockedSells | gacco/benchmarks/tpcc_gpu_executor.cu:109-119 | under locks a stock row ends with its orders deducted in serial order |
| StockCas.CasStepKeepsInv | gacco/benchmarks/tpcc_gpu_executor.cu:94-108 | in every state every row has lost, modulo 91, what has been sold of it, and is in range |
| StockCas.CasRunKeepsInv | gacco/benchmarks/tpcc_gpu_executor.cu:94-108 | so in every run |
| StockCas.CasEndsSerially | gacco/benchmarks/tpcc_gpu_executor.cu:94-108 | a finished run has the quantities of selling in transaction order |
| StockCas.CasStepShrinks | gacco/benchmarks/tpcc_gpu_executor.cu:99-107 | lock freedom: every step brings the end nearer, failed swaps included |
| StockCas.StockTable.AtomicCas | gacco/benchmarks/tpcc_gpu_executor.cu:106-107 | returns the quantity found and stores the new one exactly if it is the assumed one |
| StockCas.StockTable.Step | gacco/benchmarks/tpcc_gpu_executor.cu:97-107 | one step on the mutable table is the machine's step |
| StockCas.StockTable.Execute | gacco/benchmarks/tpcc_gpu_executor.cu:94-108 | however the transactions are picked the loops end, with the quantities of selling in transaction order |
| StockPaths.OrdersOfTxn | gacco/benchmarks/tpcc_gpu_executor.cu:88-119 | a transaction sells of every row under locks what it sells by compare-and-swap, in the same order |
| StockPaths.StockPathsAgree | gacco/benchmarks/tpcc_gpu_executor.cu:88-119 | a finished run of the compare-and-swap path and a finished run of the locked path, each in its own interleaving, leave the same quantity in every stock row |

## Left out

- CUDA launch mechanics, streams, allocation, transfers, logging, timing, command lines and scripts: plumbing without a property.
- Weak memory: steps are sequentially consistent, in the order that the fence between row and tag (or before a lock's release) gives.
- Lanes inside a warp, ballot and shuffle: a warp is one actor. The loop of gpuReadMultipleFromTableCoop, which reads ready fields first, is modelled as reading the ten fields one after the other. Divergence of threads of one warp that spin on each other's GAccO locks is not modelled.
- Rows of more than 32 words and reads of part of a row, for which the kernels return a checksum of words: a row is a sequence of words and the lanes are arbitrary functions of the rows read.
- CUB, Thrust, cuco and the GPU B-link tree appear as what they are used for: stable sort, scans, run-length encoding, filter, map and sorted set.
- Planner capacities: the buffers are required to have room for the batch (`benchmarks/tpcc.cpp:77-94` sizes them by averages), batches to have fewer than 2^32 accesses, and the plans of different transactions not to overlap.
- Packed accesses: outside `PackedOps` an access is a record of its four fields; `PackedBatches` says for which batches packing loses nothing, and for others the model does not follow what it loses.
- Tags and epochs are unbounded numbers: the 32-bit epoch counter never wraps.
- Order ids above the cache's slots per district, or above 2^20 - 1, and configurations with no slot beyond the 3000 initial orders: excluded by preconditions.
- The packing of order, new-order and order-line keys into bits, and the warehouse limits that go with it: keys are values of any type there.
- The entry behind GAccO's last access list, which the last release reads: it is taken to be readable and to hold anything.
- What GAccO reads without locks in its atomic mode, and what Payment reads of the customer row before it has that row's lock (the result is discarded); and the order rows that NewOrders write without locks there.
- The junk words that GAccO's NewOrders write to new orders, orders, order lines and, under full locking, to stock rows (`gacco/benchmarks/tpcc_gpu_executor.cu:147-162`): there, work on a row is any function of the row and the unit's local variables. `MoneyPaths` says what Payments do, and `Stock` and `StockCas` what becomes of stock otherwise.
- GAccO's submission of OrderStatus, Delivery and StockLevel, which the source does not implement.
- Words that the threads of a submission write at the same time: each thread writes its whole range in one go, the threads in any order.
- The micro benchmark's lanes, which may be any functions of the rows read.
- The padding that the merge sort leaves behind a StockLevel's items, which nobody reads.
- The history table, which no transaction accesses, and the CPU and standard-map indexes.
- Random choice of warehouses, customers, items and amounts; ids and amounts are parameters.
- The rows of tables that are only loaded (warehouses, districts, customers, items, stocks): indexing takes them from any functions of their keys.
- YcsbGenerator.KeyGenerator.GenerateTxn: its draws are a list of any length, and it gives up where the original would draw on.
- YcsbGenerator.YcsbGpuIndex.IndexTxns: has the same requirement as InsertBatch.
- YcsbGenerator.YcsbGpuIndex.InsertBatch: requires that the run's inserts do not exceed the free list, which the source does not check.
- GaccoTpccEpoch.RunEpoch: in the atomic modes it is about the rows under locks; the totals are in AtomicMoney and the stock quantities in StockCas.
- DeviceExecution.Device.Execute: picks among the units that can move; steps that only spin change nothing and are left out of this loop, not of the machine.
- CpuStorage.CpuSerialIffNoSlotReads: says it of the plan; CpuSerialIffNoReadBetweenWrites says it of the batch.
