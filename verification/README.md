# Verified model of the artifact runtime

Optima runs sealed, declarative artifacts on a GPU worker: a launch plan is turned into bounded
allocations, packed parameter bytes and ordered launches, and torn down again without leaking or
freeing too early. This project models that core in Dafny, together with the algorithms and
protocol checkers beside it, and proves what each promises for every input and every run.

| modules | what they model |
|---|---|
| `Shapes`, `AllocationBudget`, `RuntimeLog`, `EntryState`, `RuntimeEntry`, `RuntimeSystem`, `BudgetThreads` | artifact entries that share one allocation budget: prepare, call and close, with failing allocators, executors and fences |
| `Expression`, `Bytes`, `ByteLayout`, `FastDivmod`, `TensorMap`, `Parameters`, `ParameterLaws` | parameter materialisation: the checked expression DAG, packed structs, the two reciprocal dividers, tensor maps |
| `DevicePlan`, `CubinProtocol`, `DeviceRuntime` | device plans bound to observed kernels, the parameter packer, and the load / observe / launch / fence / unload protocol |
| `DeviceEntry` | device artifact entries: lifecycle entries whose steps launch the device runtimes, and the teardown that joins the two |
| `PatchText`, `PatchParser`, `PatchRoundTrip`, `PatchSpelling`, `PatchApply` | the strict unified-diff parser and the exact applier |
| `Projection`, `ProjectionPadding`, `ProjectionWidening` | the dependency projection of top-level definitions and its fingerprints |
| `AuditGate`, `AuditGateLaws` | the receipt coverage gate |
| `Activation`, `SpawnLock` | the scheduler activation window and the spawn lock |
| `Outcome`, `Arithmetic`, `Names`, `Permutation`, `Selection` | options and results, facts of arithmetic, canonical name order, reordering of sequences, elements at chosen positions |

## How it is stated

* **State is updated in place where the source does so.** `Budget`, `Entry`, `Provider`, `Driver`,
  `Library`, `Runtime`, `Worker`, `Engine`, `Hook` and `Process` are classes; parser, applier, packer,
  evaluator and gate are loops. Each is proved against a function or a predicate of its inputs, and
  the laws are lemmas about that function or predicate.
* **Everything outside the program answers arbitrarily**: allocators, executors, capture queries,
  fences, the CUDA driver, process starts and the environment. What they were asked and what they
  answered is kept in a ghost log. `Disciplined` says, event by event, what must already have
  happened; the lemmas over a disciplined log are the safety statements over whole runs. An
  operation's result is bound to those answers: `Reported` says that the first bad answer ends the
  operation with that answer's error, and that without one there is no such error.
* **The two halves are joined.** A step's executor is a device runtime: `Provider.Launch` calls it
  on whatever bindings the projection gave, and a provider fence is a fence of the device. What
  prepare, call and close of an entry do to the device is part of their contracts.
* **Runs.** `Process.Run`, `RunWorker`, `RunEngine` and `Activation.Run` take any script of method calls.
  `BudgetThreads` and `SpawnLock` go below methods: a run there is any interleaving of steps taken
  between locks.
* **What a function computes is said twice.** Beside the functions that follow the program there are
  predicates that do not mention them: valuations of an expression, the bytes a parameter must have,
  the spellings of a patch, the shape an extent must have, the steps of a phase, the resources a key
  stands for. A lemma joins the two, in both directions.
* **Consumers of emitted constants are written out.** The device code that uses the FastDivmod
  constants is not in the repository; `CuteQuotient` (the round-up scheme of Granlund and
  Montgomery) and `CutlassQuotient` (multiply-high, then shift) are its specification here.

## Findings

* The CUTLASS constants are right for divisors from 2 and dividends below 2^31. For every dividend,
  however large, multiply-high then shift is true division exactly when
  `excess * n + scale * (n % d) < scale * d`, where `scale` is the power of two divided by and
  `excess` is how far the multiplier times the divisor overshoots it (`CutlassExactIff`); up to the
  end of a block of `d` dividends one comparison decides (`CutlassExactUpTo`). Divisor 7 overshoots
  by 5 and fails on an unsigned 32-bit dividend (`CutlassNeedsI31`). For divisor 1 the formula is
  right for dividend 0 only (`CutlassUnitDivisor`), so a consumer must treat that divisor apart.
* The audit gate is documented to pass only if no receipt contains a violation or a comparison
  error. It compares the sums with zero and never looks at a counter's sign: two covered receipts
  with violations 3 and -3 pass (`CancellingReceiptsPass`). A passing gate means clean receipts
  exactly when no counter is negative (`PassingIsCleanIff`), and for such receipts the documentation
  is right in both directions (`PassesAsDocumented`).
* A bare library close does not fence. A launched library can be unloaded without a fence through
  `CudaCubinLibrary.close`; the fence is the device runtime's (`BareCloseIsUnfenced`).
* For an empty old range in an existing file the applier splices at `old_start - 1`. POSIX.1-2017
  `diff` numbers such a range by the line before it. For every list of hunks that applies under both
  readings the two files are equal exactly when every hunk with an empty old range repeats the line
  before it (`PosixReadingAgrees`); one that does not lands a line early
  (`InsertionDiffersFromPosix`). A `-0,0` hunk on an existing file is always refused.
* Definition projections survive padding exactly when no added statement is a future import or
  becomes the last binder of a name the projection loads (`PaddingInvariance`).
* Recording a scheduler does not check its rank against the expected count or its process against
  the driver. A full window can then be refused its receipt (`FullWindowMayBeRefused`) and stays
  open; `ReceiptAcceptedIff` gives the exact condition.
* A process start that reads the armed flag while it is off does not take the spawn lock. If the
  flag were switched on meanwhile it could start while another thread's role markers are up
  (`BypassLeaks`). This is the only way (`LeakIffBypass`), and it is excluded while the flag stays
  on (`NoLeakWhileArmed`); the session worker reads the flag from its launch environment before it
  enters the engine (optima/eval/oci_session_worker.py:366-395).
* The expression evaluator evaluates every node, so an unused node that fails makes the whole
  expression fail (`UnusedNodeFails`); on success the result is the recursive meaning of the result
  node.

## Model

| member | source | states |
|---|---|---|
| `Shapes.EvaluateShape` | optima/artifact_runtime.py:601-639 | the loop over extents and factors gives the one shape whose extents are the products of the factors' live values divided and rounded up, and succeeds exactly if there is one; it never reports an i64 overflow, an extent above its maximum or an element count above its maximum |
| `Shapes.EvaluateProduct` | optima/artifact_runtime.py:608-627 | the running product with its i64 guard computes the live product of the factors; the guard never fires |
| `Shapes.LiveProductBounded` | optima/artifact_abi.py:724-759 | a live product of in-bound factors lies between zero and the sealed maximum product |
| `Shapes.LiveDimsBounded` | optima/artifact_abi.py:851-857 | every live extent is at most its sealed maximum and the element count is at most the product of the maxima |
| `Shapes.LiveDimsIs` | optima/artifact_runtime.py:601-639 | every live extent `n` of divisor `d` satisfies `n*d - d < product <= n*d` for the product of the values its factors project from the frame, each within its bound |
| `Shapes.ChargeCoversAlignedView` | optima/artifact_device_launch.py:614-634 | the bytes charged are the size of the backing buffer requested, and for every pointer the aligned view starts at an aligned address and ends inside that buffer |
| `AllocationBudget.Budget.Reserve` | optima/artifact_runtime.py:178-205 | the verdict is decided by the sums over live reservations; success adds exactly one reservation, failure changes nothing; counters stay equal to the sums and within the limits |
| `AllocationBudget.Budget.Cancel` | optima/artifact_runtime.py:207-214 | exactly the named reservation goes, if it exists, and its charge with it |
| `AllocationBudget.Budget.ReleaseOwner` | optima/artifact_runtime.py:216-222 | exactly the owner's reservations go, and their charges with them |
| `AllocationBudget.OwnerShare` | optima/artifact_runtime.py:1083-1099 | one owner's share of bytes and keys never exceeds the whole |
| `AllocationBudget.OwnersPartition` | optima/artifact_runtime.py:156-222 | distinct owners that cover a ledger partition its bytes and keys |
| `RuntimeLog.CaptureSafe` | optima/artifact_runtime.py:1041-1045 | in every run, before any allocation or init, prepare or destroy launch the same method has queried capture, and its latest query answered no |
| `RuntimeLog.InitOnce` | optima/artifact_runtime.py:1190-1202 | in every run an entry completes each init key at most once |
| `RuntimeLog.InitsHaveReturned` | optima/artifact_runtime.py:1199-1202 | in every run an init key is completed right behind init launches of that entry, at least one, and all of them returned |
| `RuntimeLog.TokensAreIssued` | optima/artifact_runtime.py:1375-1389 | in every run a token a call accepts was published earlier by a prepare of the same entry, after a fence over all prepare launches of that prepare, and none of that prepare's launches and fences failed |
| `RuntimeLog.NothingAfterClose` | optima/artifact_runtime.py:1427-1468 | in every run, after teardown begins an entry allocates nothing, issues and accepts no token and launches only destroy steps; after it closed it launches nothing |
| `RuntimeLog.ReleaseIsFenced` | optima/artifact_runtime.py:1436-1457 | in every run, between any launch of an entry and the release of its frames there is a successful fence |
| `RuntimeLog.FailureBlocksClosing` | optima/artifact_runtime.py:1434-1468 | in every run, if a launch or fence of an entry failed and the entry closed later, then a later close attempt of it began in between and nothing in that attempt failed |
| `RuntimeLog.EveryDestroyReturned` | optima/artifact_runtime.py:1434-1468 | in every run, the attempt that closes an entry launched every destroy step the entry ever recorded, on the recorded frame, and every one of them returned |
| `RuntimeLog.Provider.IsCapturing` | optima/artifact_runtime.py:980-992 | a provider without a capture query is never capturing |
| `RuntimeLog.Provider.Launch` | optima/artifact_runtime.py:1137-1164 | a step is handed over once and its outcome recorded; what reaches the device are launches of its own runtime's library; it returns only if its whole plan was launched, row by row, for some bindings, and the driver accepted every row; a closed library fails the step |
| `RuntimeLog.Provider.Synchronize` | optima/artifact_runtime.py:1011-1022 | a provider fence is one fence of the device; a successful one settles every launch before it |
| `RuntimeLog.Provider.LaunchSteps` | optima/artifact_runtime.py:1137-1164 | success exactly when every step of the phase was launched in order and returned, and then the device saw their plans one after the other; otherwise every step before some step returned, that step failed, and none follows |
| `RuntimeLog.Provider.LaunchRows` | optima/artifact_runtime.py:1443-1448 | every recorded destroy is attempted exactly once, in recording order, whatever fails; success exactly when every one of them returned, and then the device saw their plans one after the other |
| `EntryState.RequestIsCost` | optima/artifact_runtime.py:642-663 | the bytes an entry requests for a frame, computed from sealed maxima, are the cost its cache key implies |
| `EntryState.PrepareKeysAgree` | optima/artifact_runtime.py:1218-1229 | two prepares have the same key exactly if every argument is the same resource: for tensors the same pointer, shape, stride, element type and device, otherwise the same value |
| `EntryState.LifecycleKeysAgree` | optima/artifact_runtime.py:1166-1188 | two init or destroy keys over the same names are equal exactly if plan, role and every resource are the same, an unnamed stream by the scope answered for it |
| `EntryState.ImplicitKeysAgree` | optima/artifact_runtime.py:1302-1328 | two calls share an implicit preparation exactly if plan and scope are the same and so is every resource that the prepare steps read or a prepared shape is computed from |
| `EntryState.FilterIsPhase` | optima/artifact_runtime.py:1192-1201 | the steps of a phase are the plan's steps at exactly the positions with its roles, walked upwards |
| `EntryState.AssembledEquips` | optima/artifact_runtime.py:1255-1281 | an assembled frame holds every declared tensor of the prefix, aligned and in the shape the frame before it gives, after the engine state where that can be shaped |
| `RuntimeEntry.Entry.RequirePreCapture` | optima/artifact_runtime.py:980-1045 | passes exactly when the latest capture query answers no, which it always does for a provider without one; capturing and a failed query are told apart as they were answered |
| `RuntimeEntry.Entry.ShapesFor` | optima/artifact_runtime.py:1058-1069 | the rows are the live shapes of all declarations, or the first error |
| `RuntimeEntry.Entry.AllocateAll` | optima/artifact_runtime.py:1102-1119 | one allocation request per declared tensor, in order, with its shape, width and alignment; a returned frame holds exactly the tensors the provider gave, each of the right shape and alignment and approved by it; the first answer that is not ends it with failure |
| `RuntimeEntry.Entry.AllocateFrame` | optima/artifact_runtime.py:1098-1124 | success caches the allocated frame and books its cost; any failure leaves frames, counters and the shared ledger as they were; a reservation never repeats |
| `RuntimeEntry.Entry.MakeFrame` | optima/artifact_runtime.py:1078-1124 | a missing frame is made only outside capture; the entry-level limit checks refuse only what the shared budget would refuse |
| `RuntimeEntry.Entry.ResourceFrame` | optima/artifact_runtime.py:1047-1124 | the result is the frame cached for the shapes the live frame implies; a cached frame is returned without touching anything and is never replaced; the repeat guard is dead; a failure changes neither frames nor ledger |
| `RuntimeEntry.Entry.KeyOf` | optima/artifact_runtime.py:1166-1188 | the key lists every named resource by its identity, and a stream the frame does not name by a scope the provider answered for it; a missing resource or a failed scope query is the only error |
| `RuntimeEntry.Entry.EnsureInitialized` | optima/artifact_runtime.py:1190-1202 | after success a completed init key matches the identities of the resources the init steps read; a key is added only after a clear capture query and after every init step of the plan was launched, in plan order, and returned; with a completed key nothing is launched |
| `RuntimeEntry.Entry.RecordDestroy` | optima/artifact_runtime.py:1204-1216 | after success every destroy step of the plan has a row with that very step, on a frame whose resources have the identities of the one used; nothing recorded is lost or repeated, and each new row is owed until the entry closes |
| `RuntimeEntry.Entry.AssembleFrame` | optima/artifact_runtime.py:1255-1281 | the frame is the base with the cached engine state, where its shape is known, and then the cached storage of the prefix |
| `RuntimeEntry.Entry.PreparePlan` | optima/artifact_runtime.py:1254-1290 | the plan's frame is assembled and holds every prepared tensor in its shape, its init steps have run for it, exactly its prepare steps ran on it in plan order and every one returned, and its destroy steps are recorded; the first bad answer of a provider callback ends it with that answer's error |
| `RuntimeEntry.Entry.PrepareAll` | optima/artifact_runtime.py:1251-1294 | after success that holds of every plan, and every prepare launch is fenced; a failed fence is its own error |
| `RuntimeEntry.Entry.Prepare` | optima/artifact_runtime.py:1232-1300 | a closing entry refuses; published tokens are never replaced and never more than the key limit; a cached one is returned without touching anything; a returned token is this entry's, under a key with the identity of each argument, and complete for every plan; a new one means that every plan was prepared in this call, in the scope the provider answered, and that no provider answer in the call was bad |
| `RuntimeEntry.Entry.Select` | optima/artifact_runtime.py:957-978 | the selected plan is the one match with the most specializations, all of which hold in the frame; the errors say that nothing matches or that two best matches exist |
| `RuntimeEntry.Entry.ImplicitFrame` | optima/artifact_runtime.py:1302-1359 | the result is the frame cached for the plan, the scope and what the plan reads; a cached frame is returned without touching anything and never replaced; a new one means that the plan was prepared in this call and every prepare step returned; no more are kept than the key limit |
| `RuntimeEntry.Entry.StorageScopes` | optima/artifact_runtime.py:1397-1421 | workspace and state are shared exactly between calls in the same scope for the same groups, prepared storage exactly between prepares of the same resources, implicit storage exactly between calls that share the preparation, and nothing between these kinds |
| `RuntimeEntry.Entry.TakeToken` | optima/artifact_runtime.py:1370-1389 | a token is accepted exactly when this entry published it and still holds it, and gives the frame prepared for the plan; the lacks-plan error cannot occur |
| `RuntimeEntry.Entry.Call` | optima/artifact_runtime.py:1361-1425 | a successful call launched exactly the reset and run steps of the selected plan, in plan order and last, each returning, on what it brings along plus engine state and every workspace tensor in its shape, in the scope the provider answered, initialised and with its destroy steps recorded; the last the device saw are the whole plans of those steps in order; the first bad answer ends the call with its error; a closing entry refuses, changes nothing and leaves the device alone |
| `RuntimeEntry.Entry.Close` | optima/artifact_runtime.py:1427-1468 | closed exactly on success; otherwise every frame, destroy row and reservation is kept; past the first fence each recorded destroy is launched exactly once and in order, a second fence follows exactly if there were rows and all returned, and release exactly if nothing failed; on success the device saw the whole plans of the destroy steps in order, between the fences |
| `EntryState.OthersKeepBooks` | optima/artifact_runtime.py:178-222 | another owner's operation cannot unbalance an entry's books |
| `EntryState.BookFrame` | optima/artifact_runtime.py:1121-1124 | committing one frame keeps the reservations, the cached frames and the entry's counters in agreement |
| `RuntimeSystem.Process.AddEntry` | optima/artifact_runtime.py:709-809 | a new entry joins with empty books and leaves the others valid |
| `RuntimeSystem.Process.Step` | optima/artifact_runtime.py:1232-1468 | any method call on any entry, with any provider behaviour, keeps every entry valid |
| `RuntimeSystem.Process.Accounting` | optima/artifact_runtime.py:168-222 | at every method boundary the shared bytes and keys are the sums of the entries' own counters, within the limits, and the reservations are exactly the cached frames |
| `RuntimeSystem.Process.Run` | optima/artifact_runtime.py:1232-1468 | the same after any script of prepare, call and close on any entries, and the run is disciplined |
| `BudgetThreads.EveryRun` | optima/artifact_runtime.py:1083-1124 | in every interleaving of reserve, commit, cancel and release the ledger holds exactly the committed frames and the allocations under way, counters lag by the one pending charge, and the limits hold |
| `BudgetThreads.GuardsAreRedundant` | optima/artifact_runtime.py:1083-1099 | whatever other threads are doing, an uncached key is unreserved and an entry's own limit checks refuse nothing the budget would accept |
| `BudgetThreads.AllocationIsReserveCommit` | optima/artifact_runtime.py:1098-1124 | what an entry's allocation does to its books and the ledger is exactly Reserve followed by Commit |
| `BudgetThreads.RollbackIsReserveCancel` | optima/artifact_runtime.py:1113-1119 | a failed allocation is exactly Reserve followed by Cancel and leaves everything as it was |
| `BudgetThreads.CloseIsRelease` | optima/artifact_runtime.py:1458-1468 | a successful close is exactly Release |
| `Expression.QuotientsAreExact` | optima/cuda_materialize.py:1258-1268 | floor_div and ceil_div are the true floor and ceiling for every dividend, negative ones included, and mod is the remainder of the floor |
| `Expression.EvaluateMeaning` | optima/cuda_materialize.py:1193-1276 | evaluation succeeds exactly when every node has a meaning, and then yields the recursive meaning of the result node |
| `Expression.EvaluateIsValuation` | optima/cuda_materialize.py:1193-1276 | a valuation of the nodes exists exactly if evaluation succeeds, and it is the one evaluation gives; node by node it says exact sums and products, floors, ceilings and remainders, integer and boolean comparisons, least and greatest arguments (of floats the first, given that finite floats are ordered), the named branch and the named fact of the named tensor |
| `Expression.ProductSplits` | optima/cuda_materialize.py:1213-1214 | an element count is multiplicative over the dimensions |
| `Expression.Meaning` | optima/cuda_materialize.py:126-135 | every node value is a bool, a signed 64-bit integer or a finite float |
| `Expression.EvaluateList` | optima/cuda_materialize.py:1193-1276 | the value-list loop succeeds exactly if there is one value per node such that each is in the scalar policy and is what its node denotes, and returns the one at the result node; it agrees with the recursive evaluation |
| `Expression.UnusedNodeFails` | optima/cuda_materialize.py:1193-1276 | a sealed two-node expression whose result node has a meaning and whose evaluation fails |
| `Expression.NoDanglingReference` | optima/cuda_materialize.py:1461-1464 | a statically validated expression reference is never missing nor of the wrong kind at run time |
| `FastDivmod.CuteDivides` | optima/cuda_materialize.py:1318-1328 | for every divisor in [1, 2^31) the multiplier fits u32 and the four-field formula is n / divisor for every n below 2^32, with no intermediate beyond 32 bits |
| `FastDivmod.CuteBytesDivide` | optima/cuda_materialize.py:1318-1328 | the same for the fields read back from the emitted bytes |
| `FastDivmod.CutlassDivides` | optima/cuda_materialize.py:1306-1315 | for every divisor in [2, 2^31) the multiplier fits u32, the shift is between 0 and 30, and multiply-high then shift is n / divisor for every n below 2^31 |
| `FastDivmod.CutlassBytesDivide` | optima/cuda_materialize.py:1306-1315 | the same for the fields read back from the emitted bytes |
| `FastDivmod.CutlassExactIff` | optima/cuda_materialize.py:1306-1315 | for every divisor from 2 and every dividend the formula is n / divisor exactly when the overshoot does not carry n past the end of its block |
| `FastDivmod.CutlassExactUpTo` | optima/cuda_materialize.py:1306-1315 | every dividend up to the end of a block is divided exactly if and only if the overshoot times the last one stays below the scale |
| `FastDivmod.CutlassUnitDivisor` | optima/cuda_materialize.py:1306-1315 | for divisor 1 the formula is right exactly for dividend 0 |
| `FastDivmod.CutlassNeedsI31` | optima/cuda_materialize.py:1306-1315 | divisor 7 overshoots by 5, and for an unsigned 32-bit dividend the formula is one too large |
| `FastDivmod.ReciprocalExactIff` | optima/cuda_materialize.py:1306-1328 | a rounded-up reciprocal divides n exactly if and only if its excess does not carry n past the end of its block |
| `TensorMap.CheckNested` | optima/cuda_materialize.py:824-831 | the stride loop accepts exactly the nested strides |
| `TensorMap.Validate` | optima/cuda_materialize.py:796-858 | the validator accepts exactly the descriptors that meet every stated limit |
| `TensorMap.DistinctElementsDisjoint` | optima/cuda_materialize.py:824-831 | for every rank, distinct in-range coordinates address disjoint element byte ranges |
| `TensorMap.ElementsInside` | optima/cuda_materialize.py:824-831 | every element lies inside the last stride times the last dimension |
| `TensorMap.AdmittedSeparates` | optima/cuda_materialize.py:796-858 | both for every descriptor the validator admits |
| `ByteLayout.ReadBack` | optima/cuda_materialize.py:1353-1368 | disjoint segments written into a zeroed buffer each read back at their offset |
| `ByteLayout.OrderIndependent` | optima/cuda_materialize.py:1353-1368 | the buffer is the same for every order of the segments |
| `ByteLayout.WriteInPlace` | optima/cuda_launch.py:459-468 | the slice assignment replaces exactly the segment's bytes |
| `Bytes.LittleEndianRoundTrip` | optima/cuda_materialize.py:1289-1295 | a little-endian image reads back as its number |
| `Bytes.SignedRoundTrip` | optima/cuda_materialize.py:1289-1295 | a two's-complement image reads back as its signed number |
| `Parameters.CheckLayout` | optima/cuda_materialize.py:651-658 | the overlap check over a set of byte positions accepts exactly the fields that fit and do not overlap |
| `Parameters.PackedIntegerReadsBack` | optima/cuda_launch.py:401-430 | a packed integer of any width and sign reads back as itself |
| `Parameters.PackStruct` | optima/cuda_materialize.py:1353-1368 | the bytearray loop produces the struct image, or the first field's error |
| `Parameters.StructReadsBack` | optima/cuda_materialize.py:1353-1368 | each field's bytes read back at its offset |
| `ParameterLaws.StructImageHolds` | optima/cuda_materialize.py:1353-1367 | a struct packs exactly if some bytes hold every field, and then a pointer field reads back as the live address, a scalar field as the value of its expression, a literal as itself, and every other byte is zero |
| `Parameters.StructGapsZero` | optima/cuda_materialize.py:1353-1368 | bytes no field claims are zero |
| `Parameters.StructOrderIndependent` | optima/cuda_materialize.py:651-658 | every permutation of the fields gives the same bytes |
| `Parameters.MaterializedWidth` | optima/cuda_materialize.py:617-699 | every materialised parameter of a sealed plan packs to exactly its declared width |
| `ParameterLaws.MaterializeArrives` | optima/cuda_materialize.py:1331-1420 | a parameter of any kind materialises exactly if some bytes say what plan and frame say, and packs to such bytes: scalars of every type and width, addresses, structs, group handles, dividing constants, and the encoding of an admitted map whose address, dimensions, strides and boxes are those evaluated for it |
| `Parameters.ScalarParameterReadsBack` | optima/cuda_materialize.py:1341-1344 | the bytes of an integer parameter read back as the value of its expression |
| `Parameters.PointerParameterReadsBack` | optima/cuda_materialize.py:1345-1352 | the bytes of a pointer parameter read back as the live address |
| `Parameters.CuteParameterDivides` | optima/cuda_materialize.py:1374-1378 | a materialised CuTe divisor parameter divides every 32-bit dividend by the evaluated divisor |
| `Parameters.CutlassParameterDivides` | optima/cuda_materialize.py:1369-1373 | a materialised CUTLASS divisor parameter divides every 31-bit dividend by the evaluated divisor from 2 on |
| `Parameters.MapParameterSeparates` | optima/cuda_materialize.py:1391-1420 | a materialised tensor-map parameter comes from a descriptor whose elements do not overlap |
| `Parameters.NoLostReference` | optima/cuda_materialize.py:1423-1464 | a validated parameter of any kind never misses a binding at run time, and only a pointer not bound to a tensor can turn out to be none |
| `DevicePlan.ProjectionIsSealed` | optima/cuda_cubin.py:381-394 | the contract of an observed ABI passes every contract check |
| `DevicePlan.BindingYieldsSealedPlan` | optima/artifact_device_launch.py:340-369 | binding succeeds exactly when widths agree position by position, and the bound plan passes every plan check |
| `DevicePlan.BindingIsPositional` | optima/artifact_device_launch.py:340-369 | a launch of the k-th declared kernel becomes a launch of the k-th observed one and is otherwise unchanged |
| `DevicePlan.PackKernelParameters` | optima/cuda_launch.py:446-468 | the packing loop writes each parameter at the driver's offset into a zeroed buffer, or reports the first check that fails |
| `DevicePlan.KernelBufferReadsBack` | optima/cuda_launch.py:446-468 | each parameter reads back from the launch buffer at the driver's offset |
| `DevicePlan.LaunchNeverMistyped` | optima/artifact_device_launch.py:280-316 | for an admitted plan and every frame, the kernel is found and whatever materialises is accepted by the packer |
| `DevicePlan.ArgumentsArrive` | optima/artifact_device_launch.py:796-853 | for an admitted plan, the bytes of every parameter in the launch buffer, at the driver's offset, say what the plan and the frame say, for every kind of parameter |
| `DevicePlan.InvocationFindsBindings` | optima/artifact_device_launch.py:371-421 | a validated launch finds its stream, its expressions lose no reference and its parameters miss no binding, for every conforming frame |
| `CubinProtocol.NoUseAfterUnload` | optima/cuda_cubin.py:954-965 | in every run nothing launches on or unloads a library that was unloaded |
| `CubinProtocol.UnloadFollowsFence` | optima/artifact_device_launch.py:855-872 | in every run with fenced unloads a successful fence lies between any launch of a library and its unload |
| `CubinProtocol.BareCloseIsUnfenced` | optima/cuda_cubin.py:954-965 | a run, possible without the device runtime, that unloads a launched library unfenced |
| `CubinProtocol.Observe` | optima/cuda_cubin.py:824-884 | the inventory is a permutation of what the driver described during this call, as many as it counted, sorted, without repeated names, and every ABI in it is laid out in order |
| `CubinProtocol.LoadAndObserve` | optima/cuda_cubin.py:659-902 | each open attempt ends with a fresh handle retained, a fresh handle unloaded exactly once, nothing loaded, or a cleanup error; other bytes never reach the driver |
| `CubinProtocol.InspectAbi` | optima/cuda_cubin.py:590-617 | the inspected handle is unloaded exactly once before the ABI is returned |
| `CubinProtocol.Library.Close` | optima/cuda_cubin.py:954-965 | access is invalidated whatever the driver answers; one unload at most; it is fenced exactly when no launch is outstanding |
| `CubinProtocol.Library.LaunchKernel` | optima/cuda_launch.py:793-860 | a closed library, a missing kernel and a packing error stop before the driver is reached; the driver gets the named kernel, the configuration and the packed buffer, at most once; success exactly if it got them and accepted |
| `DeviceRuntime.Runtime.Configure` | optima/artifact_device_launch.py:801-839 | succeeds exactly when every grid, block and cluster expression evaluates to a positive 32-bit extent and the shared size to a bounded one, the block and the cluster are within their limits, and the cluster divides the grid; each extent of the configuration is the value of its own expression |
| `DeviceRuntime.Runtime.Call` | optima/artifact_device_launch.py:796-853 | the driver gets exactly the launches the plan describes for the frame, each extent the value of its own expression, in plan order up to the first error, and every launch before the last was accepted; success exactly if the library is open and every row was launched and accepted; a refusal before the driver means that no launch is what the row describes; missing-kernel, count, size and packing errors cannot occur |
| `DeviceRuntime.Runtime.Close` | optima/artifact_device_launch.py:855-872 | an open library is fenced and then unloaded; the result tells which of the two the driver refused, if any; a failed fence keeps the library loaded, a failed unload does not keep it open |
| `DeviceRuntime.Admit` | optima/artifact_device_launch.py:754-786 | an admitted runtime has the plan bound by position to the observed inventory of equal widths, from matching bytes and a capable registry; a failed admission retains no handle unless cleanup failed |
| `DeviceRuntime.Worker.CloseRuntimes` | optima/artifact_device_launch.py:927-934 | runtimes close in order up to the first failure, each unload right behind a fence of its own, and the others keep their handles; success exactly if the driver refused no fence and no unload, and otherwise the one refusal is the last event and the error names it |
| `DeviceRuntime.RunWorker` | optima/artifact_device_launch.py:754-872 | any script of admissions, calls and closes keeps every runtime valid, every use on a live handle and every unload fenced |
| `DeviceRuntime.OpenKeepsOthers` | optima/cuda_cubin.py:800-902 | an open attempt leaves every other library as it was |
| `DeviceEntry.Engine.Use` | optima/artifact_device_launch.py:910-917 | prepare and call of a wrapper launch and fence only; once its entry is closing they fail without touching the device |
| `DeviceEntry.Engine.Close` | optima/artifact_device_launch.py:919-934 | the lifecycle close may launch destroy steps on these runtimes and fence; if it fails nothing was unloaded and every library is as usable as before; otherwise nothing launches any more and each of its runtimes is unloaded right behind a fence of its own, up to the first refusal of the driver, which decides the result |
| `DeviceEntry.LaunchesPrecedeFence` | optima/artifact_device_launch.py:919-934 | in a close every launch comes before the fence that stands right before any unload |
| `DeviceEntry.RunEngine` | optima/cute_cubin.py:1079-1209 | in every run of prepares, calls and closes of all wrappers, and of direct runtime closes, nothing launches on an unloaded library, every unload follows a fence, and the lifecycle log is disciplined |
| `PatchText.SplitJoin` | optima/deppatch.py:219-219 | splitting undoes joining of newline-free lines, up to the empty tail |
| `PatchText.JoinSplit` | optima/deppatch.py:191-194 | a text is the join of its lines followed by its tail, and the tail is empty exactly when the text is empty or ends in a newline |
| `PatchText.NumberOfDecimal` | optima/deppatch.py:54-54 | a greedy digit match reads a printed number back |
| `PatchParser.ParsePatchText` | optima/deppatch.py:91-174 | the cursor program always ends and computes the grammar's result, error kind included |
| `PatchParser.ParseBody` | optima/deppatch.py:140-163 | the counting loop consumes the lines the grammar assigns to the hunk body |
| `PatchParser.ParseHunks` | optima/deppatch.py:130-167 | the hunk loop consumes exactly the hunks of the section |
| `PatchParser.ParseSection` | optima/deppatch.py:109-172 | one file section with its header, path and new-file checks, in the program's order |
| `PatchSpelling.ParsesExactlySpellings` | optima/deppatch.py:92-172 | a text parses to a patch if and only if the patch is well formed and the text spells it: counts of one may be left out, anything may follow a hunk header, blanks and timestamps may surround paths, an empty line is empty context, and ignored lines may stand around file sections |
| `PatchSpelling.SpellingIsCanonical` | optima/deppatch.py:92-172 | every spelling of a patch parses to what its canonical print parses to |
| `PatchSpelling.OmittedCounts` | optima/deppatch.py:135-138 | a hunk header with either count or both left out has the count one there, for all starts and counts and whatever follows |
| `PatchSpelling.LegalPathMeans` | optima/deppatch.py:72-78 | a path is legal exactly if it has no backslash and no NUL and no component is empty, a dot or two dots |
| `PatchRoundTrip.ParsedIsWellFormed` | optima/deppatch.py:91-174 | in every accepted patch tagged lines match their counts, paths are legal and distinct, and new files have one `-0,0` hunk |
| `PatchRoundTrip.PrintedParses` | optima/deppatch.py:91-174 | every well-formed patch is parsed back from its canonical text, although body lines may look like headers |
| `PatchRoundTrip.RoundTrip` | optima/deppatch.py:91-174 | for every accepted text, printing the parsed patch and parsing again gives the same patch |
| `PatchRoundTrip.AcceptedIffWellFormed` | optima/deppatch.py:91-174 | the parser's range is exactly the well-formed patches |
| `PatchApply.ApplyHunks` | optima/deppatch.py:194-218 | succeeds exactly when all hunks are in order, inside the file and match their context; the result is the splice of every hunk at its stated position; an error is that of the first hunk that does not fit |
| `PatchApply.FaultFreeIffApplicable` | optima/deppatch.py:194-218 | the first-fault scan finds nothing exactly when every hunk fits |
| `PatchApply.UntouchedLineKept` | optima/deppatch.py:194-218 | a line outside every hunk keeps its content and moves by the hunks before it |
| `PatchApply.HunkLands` | optima/deppatch.py:194-218 | each hunk's new lines stand at its position, moved by the hunks before it |
| `PatchApply.LineCount` | optima/deppatch.py:194-218 | the line count changes by the sum of the hunks' changes |
| `PatchApply.DeltaCounts` | optima/deppatch.py:205-217 | each hunk's change is its additions minus its removals |
| `PatchApply.ApplyFilePatch` | optima/deppatch.py:177-219 | new files, missing targets and missing trailing newlines are handled as the source does, and otherwise the text is the joined splice |
| `PatchApply.NewFileIsAllAdditions` | optima/deppatch.py:183-187 | the content of a parsed new file is exactly its body lines without the plus sign |
| `PatchApply.UndoRestores` | optima/deppatch.py:177-219 | for every accepted patch and every file it applies to, the reversed patch with recomputed starts is itself read back from its text, applies to the result and restores the original text exactly |
| `PatchApply.PosixTopInsertionRefused` | optima/deppatch.py:199-201 | a hunk with start 0 on an existing file is always refused |
| `PatchApply.PosixReadingAgrees` | optima/deppatch.py:194-218 | for every list of hunks that applies under both readings, the file equals POSIX's exactly when every hunk with an empty old range repeats the line before it |
| `PatchApply.InsertionDiffersFromPosix` | optima/deppatch.py:194-218 | a concrete insertion that lands one line early, with the file each reading gives |
| `Projection.Scan` | optima/copy_fingerprint.py:439-450 | the dictionary maps each name to its last binder; future imports are exactly collected |
| `Projection.BoundNames` | optima/copy_fingerprint.py:385-413 | an import binds its alias or the first part of the dotted name, an import from a module its alias or the name, a star nothing, and imports load no name |
| `Projection.SelectedIsLeast` | optima/copy_fingerprint.py:502-513 | the selection is closed under the last binder of a loaded name, contains the definition and the future imports, and is contained in every such set |
| `Projection.Dependencies` | optima/copy_fingerprint.py:505-513 | the worklist ends and computes that least set, whatever order names are visited in |
| `Projection.Project` | optima/copy_fingerprint.py:459-495 | the loop yields exactly the selected statements in module order, imports pruned to the names in use when asked |
| `Projection.PrunedIs` | optima/copy_fingerprint.py:459-489 | pruning keeps of an import exactly the aliases that bind a name in use, and stars, in order; it drops the import if none is left and touches neither future imports nor anything else |
| `Projection.Fingerprints` | optima/copy_fingerprint.py:452-517 | the fingerprints are exactly the substantial renderings of the three views of each definition |
| `ProjectionPadding.PaddingInvariance` | optima/copy_fingerprint.py:423-517 | for statements added anywhere and any number of times, the projection is the moved projection exactly when no added statement is a future import or the last binder of a name the projection loads |
| `ProjectionPadding.DisjointPaddingIsHarmless` | optima/copy_fingerprint.py:423-437 | padding whose bound names the projection does not load meets that condition |
| `ProjectionPadding.ViewsSurvive` | optima/copy_fingerprint.py:502-515 | standalone, dependency and pruned views are unchanged by such padding |
| `ProjectionPadding.FingerprintsSurvive` | optima/copy_fingerprint.py:423-517 | padding harmless to every definition loses no fingerprint, whatever the rendering |
| `ProjectionWidening.SelectionStays` | optima/copy_fingerprint.py:505-513 | aliases added to an import, if they bind nothing the projection loads, leave the selection as it was |
| `ProjectionWidening.PrunedViewSurvives` | optima/copy_fingerprint.py:435-437 | they leave the standalone and the pruned view of the definition as they were |
| `ProjectionWidening.PrunedFingerprintSurvives` | optima/copy_fingerprint.py:423-517 | they lose neither of those fingerprints |
| `AuditGate.Collect` | optima/audit_gate.py:45-72 | the early-exit loop with its three dictionaries finishes exactly on receipts that are members and pairwise compatible, and otherwise stops at the first that does not fit |
| `AuditGate.Gate` | optima/audit_gate.py:15-101 | passes exactly on complete and consistent receipts with enough calls whose violations and comparison errors each add up to at most zero; raises exactly when everything before the summary passed and the summary cannot be computed; otherwise fails for the one reason that applies, the first misfitting receipt included |
| `AuditGateLaws.CoverageIsBijection` | optima/audit_gate.py:35-84 | covered receipts are in bijection with slots times ranks, rank and process determine each other, and every member meets minimum coverage |
| `AuditGateLaws.TotalCheckIsDead` | optima/audit_gate.py:99-100 | with authority supplied the final total-coverage check cannot fail |
| `AuditGateLaws.VerdictPermutes` | optima/audit_gate.py:15-101 | for integer and boolean counters, passing, failing and raising are the same for every permutation of the receipts |
| `AuditGateLaws.PassingIsCleanIff` | optima/audit_gate.py:25-27 | when the gate passes, no receipt reports a violation or a comparison error if and only if no counter is negative |
| `AuditGateLaws.PassesAsDocumented` | optima/audit_gate.py:25-27 | with authority and without negative counters the gate passes exactly on covered receipts that report neither |
| `AuditGateLaws.CancellingReceiptsPass` | optima/audit_gate.py:87-101 | two covered receipts with violations 3 and -3 that pass |
| `Activation.Hook.Arm` | optima/discovery_overlay.py:474-508 | a window opens exactly for a valid request while none is open |
| `Activation.Hook.Clear` | optima/discovery_overlay.py:511-516 | the window is discarded without a receipt |
| `Activation.Hook.Start` | optima/discovery_overlay.py:870-942 | markers, target and arguments are restored after every attempt; a start the open window does not admit is refused and never reaches the system; an admitted scheduler starts under the markers and is recorded exactly if the start succeeded and reported a usable new process, as the member its arguments announce; every other start inherits the environment as it is |
| `Activation.Hook.Require` | optima/discovery_overlay.py:1181-1273 | a receipt is issued exactly when the window matches, is full and live, all ranks are below the count and none is the driver; it lists rank k at position k and closes the window; otherwise nothing changes |
| `Activation.ReceiptAcceptedIff` | optima/discovery_overlay.py:281-303 | a full window's receipt is accepted exactly when every rank is below the expected count and no scheduler is the driver |
| `Activation.FullWindowMayBeRefused` | optima/discovery_overlay.py:525-584 | a sound, full window for one scheduler, recorded with rank 5 as its arguments announce, whose receipt is refused |
| `Activation.Run` | optima/discovery_overlay.py:870-942 | in every script of arm, start, require, clear and environment changes each window records at most the schedulers it was armed for, all different, each the process of a successful start right before; it yields at most one receipt, of exactly those, with ranks 0 to tp-1 in order; a child inherits the markers exactly when its target is a scheduler and the flag is on; every process keeps its target and arguments |
| `SpawnLock.EveryRun` | optima/discovery_overlay.py:870-942 | in every interleaving of threads the lock has one owner, the role marker is up only while its owner holds it up and returns to the ambient value, and a start that took the lock is marked exactly when it is a scheduler's |
| `SpawnLock.NoLeakWhileArmed` | optima/discovery_overlay.py:871-878 | while the flag stays on a child starts under the markers exactly when it is a scheduler |
| `SpawnLock.LeakIffBypass` | optima/discovery_overlay.py:871-878 | a start of another kind leaks exactly when it bypassed the lock while markers were up, and a scheduler goes unmarked exactly when it bypassed the lock while none were |
| `SpawnLock.BypassLeaks` | optima/discovery_overlay.py:871-878 | a concrete interleaving that leaks |

## Left out

- Assembly of the base frame, scoped resources and the binding projections of a step (optima/artifact_runtime.py:284-535, 904-955): a call starts from an assembled frame and a launch from its step.
- Construction and admission checks of an entry's plans (`_build_plans`, `_validate_plans`, `validate_pipeline`): an entry starts from sealed plans with distinct names.
- DeviceRuntime.Runtime.Configure: launch attributes other than the ones that need a cluster are not modelled; building the driver configuration and the shared-memory opt-in are one arbitrary answer of the driver.
- RuntimeSystem.Process.Run: entries interleave at method calls; `BudgetThreads` covers what happens between the reservation and the commit of different entries. Re-entrant calls from inside a provider callback are not modelled.
- Activation.Run: each method is one critical section; `SpawnLock` covers what happens around the lock. A start that re-enters itself on the same thread is not modelled.
- Object identity (owners, tokens, library handles, windows) is a number not used before.
- AuditGateLaws.VerdictPermutes: float counters are not modelled; the source adds them in order, and rounded sums of 1e16, 1 and -1e16 depend on it.
- AuditGate.Gate: of the worst fraction only whether it can be printed is modelled.
- Floats elsewhere are opaque bit patterns with arbitrary operations.
- Expression.EvaluateIsValuation: the order of finite floats is supposed to be a strict weak order; nothing else about floats is.
- Expression.NoDanglingReference: an axis above a live tensor's rank, a type mismatch and a divisor that is not positive stay possible run-time errors, as in the source.
- Digests, name patterns, ELF checks, capability strings, versions, filesystem paths and JSON forms: compared as opaque values or passed in as the answer of the check.
- PatchText.NumberOfDecimal: decimal digits are the ASCII ones; the source's pattern also takes other Unicode digits, and Python refuses extremely long digit strings.
- PatchApply.UndoRestores: new files are excluded, since undoing one is a deletion, which the format does not have.
- `new_start` is parsed and printed but, as in the source, never read by the applier.
- CPython parsing, unparsing and docstring stripping: a statement is given with its bound and loaded names, and rendering is a parameter of the fingerprint lemmas.
- Import closures, CUDA-source and dependency-patch fingerprints, and the comparison of submitted deltas (optima/copy_fingerprint.py): set unions and equalities that would only add easy members.
- Pickled argument envelopes, import hooks and the overlay's own activation inside the child (optima/discovery_overlay.py:590-870, 945-1178).
- Commands, arena admission, chain publication, settlement and environment introspection.
