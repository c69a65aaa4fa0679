# threaded-ecs-unity, modelled in Dafny

This project models the sequential core of threaded-ecs-unity, a Unity
entity/component system whose systems run on a pool of worker threads. It
covers the following parts, each with every lock treated as absent:

- **Masks.** The 64-bit `TagMask`, the storage-layer 64-bit `ComponentMask`
  with its `CreateMask` helpers, and the older four-word 256-bit
  `ComponentMask`.
- **Entity storage.**
  - the entity allocators: a free stack, plus a free-status array in the
    newer one;
  - the O(1)-clear `EntitySet` and the dense `ComponentContainer`;
  - the per-entity tag table with its ascending query;
  - the `EntityContext` façade and the older `EntityContainer`.
- **Registries.** The name-ordered type registries (`TagReflector`,
  `ComponentReflector`).
- **Scheduling.**
  - the batch partition of `[0, n)` and the completion countdowns of
    `SubtaskExecutor` and `TaskExecuteHandle`;
  - the required-mask and subtask-to-entity mapping of `EntityTask`;
  - the round-robin multi-queue `SubtaskRunner`.
- **Smaller pieces.**
  - the octree `ColliderManager` and the `Line` helpers it uses;
  - the per-thread render buffers `GraphicBatch` and `RenderSet`;
  - the profiler's ring-buffer `TimelineTrack`;
  - the 16-bit LFSR `ShiftRandomProvider`;
  - the FIFO `Logger`.

Every file is one module. Most follow one C# file; three do not:
`common.dfy` holds shared vocabulary (results, entity ids, C#'s `%`),
`bitmask64.dfy` the 64-bit word reasoning behind the 64-bit masks, and
`batching.dfy` the index partition that SubtaskExecutor.cs and
TaskExecuteHandle.cs compute alike. Throughout:

- C# structs with value semantics become datatypes and functions.
- Classes whose fields change become Dafny classes. Their methods carry
  `modifies` clauses and are specified by functions of the old state.
- Loops stay loops, with invariants.
- An operation that can throw returns a `Result`, whose `Err` carries the
  exception's message.
- Clocks, thread ids and the abstract members that subclasses supply are parameters.
- The generic payload and matrix types are type parameters.
- C#'s truncating `%` is modelled by `Common.CMod`.

## Model

| member | source | states |
|---|---|---|
| TagMasks.Empty | Assets/Scripts/ECS/Storage/TagMask.cs:13 | the default mask holds no tag |
| TagMasks.Full | Assets/Scripts/ECS/Storage/TagMask.cs:14 | the empty mask inverted holds all 64 positions |
| TagMasks.IsEmpty | Assets/Scripts/ECS/Storage/TagMask.cs:16 | `val == 0` exactly when the mask holds no tag |
| TagMasks.Single | Assets/Scripts/ECS/Storage/TagMask.cs:20-23 | `1L << tag` holds exactly position `tag % 64` (C# masks a long's shift count) |
| TagMasks.SingleBelowLimit | Assets/Scripts/ECS/Storage/TagMask.cs:12 | a tag below `MAX_ENTRIES` gives the mask of exactly that tag |
| TagMasks.Has | Assets/Scripts/ECS/Storage/TagMask.cs:25 | `(other & val) == other` holds iff other's tags are a subset of the mask's |
| TagMasks.NotHas | Assets/Scripts/ECS/Storage/TagMask.cs:27 | `(other & val) == 0` holds iff the two tag sets are disjoint |
| TagMasks.Add | Assets/Scripts/ECS/Storage/TagMask.cs:29-33 | the result's tags are the union; it then has both operands |
| TagMasks.Remove | Assets/Scripts/ECS/Storage/TagMask.cs:35-39 | the result's tags are the difference; it then NotHas `other`; tags outside `other` are kept |
| TagMasks.Invert | Assets/Scripts/ECS/Storage/TagMask.cs:41-45 | the result holds exactly the positions the mask lacks |
| TagMasks.Clear | Assets/Scripts/ECS/Storage/TagMask.cs:47-51 | the result is empty |
| TagMasks.Plus | Assets/Scripts/ECS/Storage/TagMask.cs:53 | `operator +` gives the union of the tag sets |
| TagMasks.Minus | Assets/Scripts/ECS/Storage/TagMask.cs:55 | `operator -` gives the difference of the tag sets |
| TagMasks.InvertInvolution | Assets/Scripts/ECS/Storage/TagMask.cs:41-45 | inverting twice gives the same mask back |
| TagMasks.EmptyIsNeutral | Assets/Scripts/ECS/Storage/TagMask.cs:25-27 | every mask both Has and NotHas the empty mask |
| TagMasks.FullHasEvery | Assets/Scripts/ECS/Storage/TagMask.cs:14 | the full mask Has every mask |
| TagMasks.TagsDetermineMask | Assets/Scripts/ECS/Storage/TagMask.cs:18 | two masks with the same tags are the same long |
| BitMask64.SubsetIff | Assets/Scripts/ECS/Storage/TagMask.cs:25 | `a & b == a` iff the set bits of `a` are set in `b` |
| BitMask64.DisjointIff | Assets/Scripts/ECS/Storage/TagMask.cs:27 | `a & b == 0` iff the two bit sets are disjoint |
| BitMask64.BitsInjective | Assets/Scripts/ECS/Storage/TagMask.cs:18 | a 64-bit word is determined by its set bits |
| ComponentMasks.CreateMask1 | Assets/Scripts/ECS/Storage/ComponentMask.cs:61-64 | the mask of exactly component `comp1 % 64` |
| ComponentMasks.CreateMask2 | Assets/Scripts/ECS/Storage/ComponentMask.cs:66-70 | as written, the mask holds only `comp1`: both operands are built from `comp1` |
| ComponentMasks.CreateMask2DropsSecond | Assets/Scripts/ECS/Storage/ComponentMask.cs:66-70 | for distinct components below 64, the as-written mask lacks `comp2` and differs from the intended one |
| ComponentMasks.CreateMask2Intended | Assets/Scripts/ECS/Storage/ComponentMask.cs:66-70 | the corrected mask holds exactly `comp1` and `comp2` |
| ComponentMasks.CreateMask2IntendedHasBoth | Assets/Scripts/ECS/Storage/ComponentMask.cs:72-77 | the corrected mask has both single masks and equals their union, as the three-argument form builds it |
| ComponentMasks.CreateMask3 | Assets/Scripts/ECS/Storage/ComponentMask.cs:72-77 | the mask holds exactly the three components |
| ComponentMasks.CreateMask4 | Assets/Scripts/ECS/Storage/ComponentMask.cs:79-85 | the mask holds exactly the four components |
| ComponentMasks.ComponentsAlias | Assets/Scripts/ECS/Storage/ComponentMask.cs:21-24 | byte ids 64 apart give the same 64-bit mask |
| WideMasks.Single | Assets/Scripts/ECS/ComponentMask.cs:12-25 | the constructor sets bit `comp % 64` of word `comp / 64`, sets nothing else, and the mask holds exactly `comp` |
| WideMasks.SetContains | Assets/Scripts/ECS/ComponentMask.cs:32-38 | after `Set(other)` the mask holds its old components and those of `other` |
| WideMasks.UnsetContains | Assets/Scripts/ECS/ComponentMask.cs:45-51 | after `Unset(other)` the mask holds its old components that are not in `other` |
| WideMasks.Has | Assets/Scripts/ECS/ComponentMask.cs:58-64 | `Has(other)` is the per-word subset test over all four words |
| WideMasks.HasSingleIff | Assets/Scripts/ECS/ComponentMask.cs:53-56 | `Has(comp)` holds iff the mask holds `comp` |
| WideMasks.HasContains | Assets/Scripts/ECS/ComponentMask.cs:58-64 | when `Has(other)` holds, every component of `other` is in the mask |
| WideMasks.SetHas | Assets/Scripts/ECS/ComponentMask.cs:32-38 | after `Set(other)` the mask has `other` and everything it had |
| WideMasks.SetComponentSpec | Assets/Scripts/ECS/ComponentMask.cs:27-30 | after `Set(comp)`, `Has(comp)` holds and no other component changed |
| WideMasks.UnsetComponentSpec | Assets/Scripts/ECS/ComponentMask.cs:40-43 | after `Unset(comp)`, `Has(comp)` is false and no other component changed |
| WideMasks.Cleared | Assets/Scripts/ECS/ComponentMask.cs:66-72 | all four words are zero and no component is held |
| WideMasks.ComponentMask.SetMask | Assets/Scripts/ECS/ComponentMask.cs:32-38 | the fields become the word-wise OR of old value and `other` |
| WideMasks.ComponentMask.SetComponent | Assets/Scripts/ECS/ComponentMask.cs:27-30 | the value becomes `Set(old, Single(comp))` and then has `comp` |
| WideMasks.ComponentMask.UnsetMask | Assets/Scripts/ECS/ComponentMask.cs:45-51 | the fields become the word-wise AND-NOT |
| WideMasks.ComponentMask.UnsetComponent | Assets/Scripts/ECS/ComponentMask.cs:40-43 | the value becomes `Unset(old, Single(comp))` and then lacks `comp` |
| WideMasks.ComponentMask.HasComponent | Assets/Scripts/ECS/ComponentMask.cs:53-56 | true iff the current value holds `comp` |
| WideMasks.ComponentMask.Clear | Assets/Scripts/ECS/ComponentMask.cs:66-72 | the value becomes the cleared mask |
| Common.Ids | Assets/Scripts/ECS/Storage/EntityAllocator.cs:23-27 | the ids `0 .. n-1` in the ascending order the constructor loops push them |
| Common.CMod | Assets/Scripts/ECS/Tasks/Runner/SubtaskRunner.cs:49 | C#'s truncating `%`: non-negative for a non-negative dividend, in `(-n, 0]` for a negative one |
| Common.CModIdempotent | Assets/Scripts/ECS/Tasks/Runner/SubtaskRunner.cs:49 | taking C#'s `%` of a remainder again leaves it unchanged, so Help's start queue is the first queue GetTask indexes |
| EntityAllocators.EntityAllocator.constructor | Assets/Scripts/ECS/Storage/EntityAllocator.cs:20-28 | every id in `[0, 65535)` is free and on the stack in ascending order, so 65534 is on top; 65535 is never an id |
| EntityAllocators.EntityAllocator.IsAllocated | Assets/Scripts/ECS/Storage/EntityAllocator.cs:46 | true iff the id is not on the free stack |
| EntityAllocators.EntityAllocator.IsFree | Assets/Scripts/ECS/Storage/EntityAllocator.cs:48 | true iff the id is on the free stack; the negation of IsAllocated |
| EntityAllocators.EntityAllocator.Allocate | Assets/Scripts/ECS/Storage/EntityAllocator.cs:30-44 | with an empty stack, `Err` and nothing changes; otherwise pops the top, which was free, marks only it allocated; the status array matches the stack, without duplicates |
| EntityAllocators.EntityAllocator.Free | Assets/Scripts/ECS/Storage/EntityAllocator.cs:50-60 | an allocated id is pushed and marked free; a free id changes nothing; no other status changes |
| EntityAllocators.FreeThenAllocate | Assets/Scripts/ECS/Storage/EntityAllocator.cs:37-57 | LIFO: allocating right after freeing `e` returns `e` and restores the stack |
| StackEntityAllocators.StackEntityAllocator.constructor | Assets/Scripts/ECS/StackEntityAllocator.cs:10-17 | the stack is `0 .. 65534` pushed in order, so the first pop gives 65534 |
| StackEntityAllocators.StackEntityAllocator.Allocate | Assets/Scripts/ECS/StackEntityAllocator.cs:19-22 | pops the most recently pushed id; an empty stack is `Err` (Stack.Pop throws) |
| StackEntityAllocators.StackEntityAllocator.Free | Assets/Scripts/ECS/StackEntityAllocator.cs:29-32 | pushes unconditionally: the id's multiplicity on the stack grows by one |
| StackEntityAllocators.DoubleFree | Assets/Scripts/ECS/StackEntityAllocator.cs:24-32 | freeing one id twice makes the next two allocations both return it |
| EntitySets.EntitySet.Contents | Assets/Scripts/ECS/Storage/EntitySet.cs:15-16 | the set is `Data[0 .. Count)`, of length `Count` |
| EntitySets.EntitySet.constructor | Assets/Scripts/ECS/Storage/EntitySet.cs:18-21 | a 65535-slot buffer holding nothing |
| EntitySets.EntitySet.Add | Assets/Scripts/ECS/Storage/EntitySet.cs:23-27 | writes `Data[Count]`, increments `Count`, appends to the contents, and leaves every other slot as it was |
| EntitySets.EntitySet.Clear | Assets/Scripts/ECS/Storage/EntitySet.cs:29-32 | `Count` becomes 0 and the buffer is untouched |
| ComponentContainers.ComponentContainer.constructor | Assets/Scripts/ECS/Storage/ComponentContainer.cs:12-15 | one default-valued slot per entity id (65535 of them) |
| ComponentContainers.ComponentContainer.Get | Assets/Scripts/ECS/Storage/ComponentContainer.cs:17-20 | the value in the entity's slot of the dense array, the array whose whole contents Set and the constructor state |
| ComponentContainers.ComponentContainer.Set | Assets/Scripts/ECS/Storage/ComponentContainer.cs:22-25 | `Get(e)` then returns the value, and no other slot changes |
| EntityTagContainers.Query | Assets/Scripts/ECS/Storage/EntityTagContainer.cs:86-90 | the ids the scan lists, never more than it visits |
| EntityTagContainers.QueryMembers | Assets/Scripts/ECS/Storage/EntityTagContainer.cs:86-90 | an id is listed iff it is below the bound and its mask has all required tags and none of the illegal ones |
| EntityTagContainers.QueryAscending | Assets/Scripts/ECS/Storage/EntityTagContainer.cs:86 | the listed ids are strictly ascending, so no id appears twice |
| EntityTagContainers.QueryBelow | Assets/Scripts/ECS/Storage/EntityTagContainer.cs:86 | every listed id is below the scan bound |
| EntityTagContainers.ShortcutAgrees | Assets/Scripts/ECS/Storage/EntityTagContainer.cs:78-88 | skipping the illegal test when the illegal mask is empty gives the full test's answer |
| EntityTagContainers.EntityTagContainer.constructor | Assets/Scripts/ECS/Storage/EntityTagContainer.cs:25-37 | every entity starts with the empty mask |
| EntityTagContainers.EntityTagContainer.HasTags | Assets/Scripts/ECS/Storage/EntityTagContainer.cs:39-47 | true iff the entity's tags are a superset of the mask's |
| EntityTagContainers.EntityTagContainer.SetTags | Assets/Scripts/ECS/Storage/EntityTagContainer.cs:49-60 | only this entity's mask changes, to the OR with the mask, which it then has |
| EntityTagContainers.EntityTagContainer.RemoveTags | Assets/Scripts/ECS/Storage/EntityTagContainer.cs:62-73 | only this entity's mask changes, to the AND-NOT, which then NotHas the mask |
| EntityTagContainers.EntityTagContainer.GetEntities | Assets/Scripts/ECS/Storage/EntityTagContainer.cs:75-93 | the output set is cleared and then holds, ascending, exactly the matching ids |
| EntityTagContainers.EntityTagContainer.ScanInto | Assets/Scripts/ECS/Storage/EntityTagContainer.cs:78-92 | the scan adds to the cleared set exactly the ids of Query, in order |
| EntityTagContainers.EntityTagContainer.GetEntityCount | Assets/Scripts/ECS/Storage/EntityTagContainer.cs:95-111 | the count is the length of the list GetEntities produces |
| EntityContexts.EntityContext.constructor | Assets/Scripts/ECS/Storage/EntityContext.cs:42-59 | one default-filled container per component id, no entity allocated, every mask empty |
| EntityContexts.EntityContext.HasEntity | Assets/Scripts/ECS/Storage/EntityContext.cs:66-69 | the allocator's IsAllocated: the id is not on its free stack |
| EntityContexts.EntityContext.HasComponents | Assets/Scripts/ECS/Storage/EntityContext.cs:111-125 | true iff the entity's mask is a superset of the mask |
| EntityContexts.EntityContext.HasComponent | Assets/Scripts/ECS/Storage/EntityContext.cs:106-109 | true iff the entity's mask holds position `comp % 64` |
| EntityContexts.EntityContext.GetComponent | Assets/Scripts/ECS/Storage/EntityContext.cs:127-132 | the payload in the entity's slot of the component's container, whether or not the entity has the component |
| EntityContexts.EntityContext.GetMask1 | Assets/Scripts/ECS/Storage/EntityContext.cs:177-181 | the single-component mask |
| EntityContexts.EntityContext.GetMask2 | Assets/Scripts/ECS/Storage/EntityContext.cs:183-188 | as written it equals GetMask1 of the first component, since CreateMask(c1, c2) drops c2 |
| EntityContexts.EntityContext.CreateEntity | Assets/Scripts/ECS/Storage/EntityContext.cs:61-64 | `Err` iff no id is free; otherwise a previously free id is now allocated and nothing else changes |
| EntityContexts.EntityContext.RemoveEntity | Assets/Scripts/ECS/Storage/EntityContext.cs:71-81 | the id is freed, its mask is cleared, other entities and all payloads are unchanged |
| EntityContexts.EntityContext.GetEntities | Assets/Scripts/ECS/Storage/EntityContext.cs:83-97 | a fresh list of exactly the ids with every required and no illegal component, ascending |
| EntityContexts.EntityContext.SetComponent | Assets/Scripts/ECS/Storage/EntityContext.cs:134-148 | the payload is stored, so `GetComponent` returns it and `HasComponent` holds; only this entity's mask and this slot change |
| EntityContexts.EntityContext.RemoveComponent | Assets/Scripts/ECS/Storage/EntityContext.cs:150-162 | only this component's bit on this entity is cleared; the payload stays stale |
| EntityContainers.Holding | Assets/Scripts/ECS/EntityContainer.cs:37-41 | the ids the scan lists, never more than it visits |
| EntityContainers.HoldingMembers | Assets/Scripts/ECS/EntityContainer.cs:37-41 | an id is listed iff it is below the bound and its mask has the query mask |
| EntityContainers.HoldingAscending | Assets/Scripts/ECS/EntityContainer.cs:37 | the listed ids are strictly ascending |
| EntityContainers.HoldingBelow | Assets/Scripts/ECS/EntityContainer.cs:37 | every listed id is below the scan bound |
| EntityContainers.EntityContainer.constructor | Assets/Scripts/ECS/EntityContainer.cs:16-32 | one default-filled container per component id, and no entity has any component |
| EntityContainers.EntityContainer.GetEntities | Assets/Scripts/ECS/EntityContainer.cs:34-42 | exactly the ids whose mask has the query mask, ascending |
| EntityContainers.EntityContainer.HasComponents | Assets/Scripts/ECS/EntityContainer.cs:44-47 | the 256-bit Has test on the entity's mask |
| EntityContainers.EntityContainer.HasComponent | Assets/Scripts/ECS/EntityContainer.cs:56-59 | true iff the entity's mask holds the component |
| EntityContainers.EntityContainer.GetComponent | Assets/Scripts/ECS/EntityContainer.cs:61-66 | the payload in the entity's slot of the component's container |
| EntityContainers.EntityContainer.SetComponent | Assets/Scripts/ECS/EntityContainer.cs:68-74 | the payload is stored and the bit set, so HasComponent holds; no other component, entity or slot changes |
| EntityContainers.EntityContainer.RemoveComponent | Assets/Scripts/ECS/EntityContainer.cs:76-81 | only that component's bit is unset |
| EntityContainers.EntityContainer.RemoveAllComponents | Assets/Scripts/ECS/EntityContainer.cs:83-86 | the entity is left with no component |
| TagReflectors.TagReflector.Init | Assets/Scripts/ECS/Storage/TagReflector.cs:25-26 | both lookups start empty, with 255 id slots |
| TagReflectors.TagReflector.Register | Assets/Scripts/ECS/Storage/TagReflector.cs:40-41 | after the first `id` types are registered, writing both lookups for `types[id]` registers the first `id + 1` types, each at its own position |
| TagReflectors.TagReflector.GetID | Assets/Scripts/ECS/Storage/TagReflector.cs:54-60 | `Err` iff the type is unknown; otherwise an id below TagCount whose slot holds the type |
| TagReflectors.TagReflector.GetType | Assets/Scripts/ECS/Storage/TagReflector.cs:62-67 | `Err` iff `id >= TagCount`; otherwise a type whose GetID is `id` |
| TagReflectors.TagReflector.GetMask | Assets/Scripts/ECS/Storage/TagReflector.cs:69-70 | the single-bit mask of GetID, failing exactly when GetID does |
| TagReflectors.TagReflector.TypeRoundTrip | Assets/Scripts/ECS/Storage/TagReflector.cs:40-41 | `GetType(GetID(t)) == t` for every registered type |
| TagReflectors.Create | Assets/Scripts/ECS/Storage/TagReflector.cs:29-49 | as written: throws iff there are 64 or more tags; otherwise tag `i` of the sorted list gets id `i` and TagCount is their number |
| TagReflectors.CreateIntended | Assets/Scripts/ECS/Storage/TagReflector.cs:43-45 | corrected: up to 64 tags register, a 65th throws |
| TagReflectors.PartialDone | Assets/Scripts/ECS/Storage/TagReflector.cs:48-49 | once all of at most 64 types are written and TagCount is stored, the lookups are mutually inverse and hold exactly those types |
| ComponentReflectors.ComponentReflector.Init | Assets/Scripts/ECS/Storage/ComponentReflector.cs:20-21 | both lookups start empty |
| ComponentReflectors.ComponentReflector.Register | Assets/Scripts/ECS/Storage/ComponentReflector.cs:40-41 | after the first `id` types are registered, writing both lookups for `types[id]` registers the first `id + 1` types, each at its own position |
| ComponentReflectors.ComponentReflector.GetID | Assets/Scripts/ECS/Storage/ComponentReflector.cs:60-66 | `Err` iff the type is unknown; otherwise an id below ComponentCount whose slot holds the type |
| ComponentReflectors.ComponentReflector.GetType | Assets/Scripts/ECS/Storage/ComponentReflector.cs:68-73 | `Err` iff `id >= ComponentCount`; otherwise a type whose GetID is `id` |
| ComponentReflectors.ComponentReflector.IsComponent | Assets/Scripts/ECS/Storage/ComponentReflector.cs:75-78 | true iff the type was registered |
| ComponentReflectors.Create | Assets/Scripts/ECS/Storage/ComponentReflector.cs:25-51 | as written: up to 255 types register with consecutive ids in order and ComponentCount equal to their number; a 256th throws |
| ComponentReflectors.CreateIntended | Assets/Scripts/ECS/Storage/ComponentReflector.cs:37-47 | corrected: 256 slots, so 256 types register with a count of 256 and a 257th throws |
| ComponentReflectors.PartialDone | Assets/Scripts/ECS/Storage/ComponentReflector.cs:50-51 | once all types are written and ComponentCount is stored, the lookups are mutually inverse and hold exactly those types |
| Batching.BatchAt | Assets/Scripts/ECS/Tasks/SubtaskExecutor.cs:46-48 | the range at `start` begins there, ends before `n`, and spans `b` indices unless it is cut at `n - 1` |
| Batching.BatchCount | Assets/Scripts/ECS/Tasks/SubtaskExecutor.cs:40 | `(n - 1) / b + 1` is the least count `c` with `c * b >= n`, that is, the ceiling of `n / b` |
| Batching.BatchesLength | Assets/Scripts/ECS/Tasks/SubtaskExecutor.cs:40-49 | no range for `n == 0`; otherwise the loop hands out exactly BatchCount ranges |
| Batching.BatchesFromShape | Assets/Scripts/ECS/Tasks/SubtaskExecutor.cs:42-49 | every range is non-empty, lies in `[0, n)` and is at most `b` long |
| Batching.BatchesDisjoint | Assets/Scripts/ECS/Tasks/SubtaskExecutor.cs:44-49 | a later range starts after every earlier one ends |
| Batching.BatchesCover | Assets/Scripts/ECS/Tasks/SubtaskExecutor.cs:44-49 | every index in `[0, n)` lies in some range |
| Batching.BatchesAt | Assets/Scripts/ECS/Tasks/SubtaskExecutor.cs:42-49 | range `k` starts right after range `k - 1` (at 0 for the first) and lies in `[0, n)`, and only the last range ends at `n - 1` |
| SubtaskExecutors.SubtaskExecutor.Schedule | Assets/Scripts/ECS/Tasks/SubtaskExecutor.cs:24-52 | throws iff already running; with no subtasks it completes at once; otherwise it runs with `remainingBatches == BatchCount`, one runner task per batch pushed in order |
| SubtaskExecutors.SubtaskExecutor.PushBatches | Assets/Scripts/ECS/Tasks/SubtaskExecutor.cs:42-49 | the push loop appends exactly the tasks of `Batches(n, b)` to the runner |
| SubtaskExecutors.TasksAt | Assets/Scripts/ECS/Tasks/SubtaskExecutor.cs:46-48 | pushed task `k` carries range `k` of the executor |
| SubtaskExecutors.SubtaskExecutor.ExecuteSubtask | Assets/Scripts/ECS/Tasks/SubtaskExecutor.cs:54-64 | runs `min..max` ascending up to the one that throws, always decrements the countdown, and completes exactly when it reaches 0 |
| SubtaskExecutors.SubtaskExecutor.Complete | Assets/Scripts/ECS/Tasks/SubtaskExecutor.cs:66-72 | stops running and fires Completed once |
| SubtaskExecutors.Attempted | Assets/Scripts/ECS/Tasks/SubtaskExecutor.cs:56-60 | the indices a batch calls: all of `min..max`, or up to and including the one that throws |
| SubtaskExecutors.RunRange | Assets/Scripts/ECS/Tasks/SubtaskExecutor.cs:56-60 | the loop calls exactly the indices Attempted lists: all of `min..max`, or up to and including the throwing one |
| SubtaskExecutors.ScheduleAndRunAll | Assets/Scripts/ECS/Tasks/SubtaskExecutor.cs:24-64 | scheduling `n` subtasks and running every batch executes each index once, in order, and completes exactly once |
| TaskExecuteHandles.TaskExecuteHandle.Schedule | Assets/Scripts/ECS/Tasks/TaskExecuteHandle.cs:38-62 | a second call changes nothing; zero subtasks complete at once; otherwise the countdown starts at the subtask count and the ranges of `Batches(n, b)` are scheduled |
| TaskExecuteHandles.ScheduledRanges | Assets/Scripts/ECS/Tasks/TaskExecuteHandle.cs:54-60 | the loop hands the runner exactly the ranges of `Batches(n, b)`, in order |
| TaskExecuteHandles.TaskExecuteHandle.ExecuteSubtask | Assets/Scripts/ECS/Tasks/TaskExecuteHandle.cs:65-75 | the subtask runs even if it throws; the countdown drops by one, and at 0 the handle completes and disposes; a signal on a missing, disposed or spent countdown throws |
| TaskExecuteHandles.TaskExecuteHandle.Complete | Assets/Scripts/ECS/Tasks/TaskExecuteHandle.cs:77-82 | fires Completed once |
| TaskExecuteHandles.ScheduleAndRunAll | Assets/Scripts/ECS/Tasks/TaskExecuteHandle.cs:38-75 | scheduling `n` subtasks and running all of them executes each index once, in order, and completes exactly once |
| SubtaskRunners.QueueCount | Assets/Scripts/ECS/Tasks/Runner/SubtaskRunner.cs:16 | `n` queues for `n > 0`, otherwise 1 |
| SubtaskRunners.SubtaskRunner.constructor | Assets/Scripts/ECS/Tasks/Runner/SubtaskRunner.cs:14-28 | QueueCount empty queues, push index 0 |
| SubtaskRunners.SubtaskRunner.PushTask | Assets/Scripts/ECS/Tasks/Runner/SubtaskRunner.cs:30-38 | the task goes to queue `k mod count` for the `k`-th push (round robin); the push index stays in `[0, count)` |
| SubtaskRunners.PushSlotIsMod | Assets/Scripts/ECS/Tasks/Runner/SubtaskRunner.cs:36 | the wrap-around update visits queue `p % count` on push `p` |
| SubtaskRunners.SubtaskRunner.GetTask | Assets/Scripts/ECS/Tasks/Runner/SubtaskRunner.cs:64-74 | takes the head of the first non-empty queue in order `(id + i) % count`; none iff every queue is empty; a negative start index throws |
| SubtaskRunners.RotationCovers | Assets/Scripts/ECS/Tasks/Runner/SubtaskRunner.cs:66-68 | for a non-negative id, the scan visits every queue |
| SubtaskRunners.FlattenUpdate | Assets/Scripts/ECS/Tasks/Runner/SubtaskRunner.cs:30-38 | changing one queue changes the pool of queued tasks by exactly that queue's change |
| SubtaskRunners.SubtaskRunner.Help | Assets/Scripts/ECS/Tasks/Runner/SubtaskRunner.cs:46-56 | takes at most one task: never throws for a non-negative tick count, throws when the truncating `%` gives a negative start |
| SubtaskRunners.NegativeTickCountThrows | Assets/Scripts/ECS/Tasks/Runner/SubtaskRunner.cs:49 | with two queues and a tick count of -1, Help throws |
| SubtaskRunners.SubtaskRunner.HelpIntended | Assets/Scripts/ECS/Tasks/Runner/SubtaskRunner.cs:46-56 | corrected: the start queue is kept non-negative, Help never throws and finds nothing iff every queue is empty |
| EntityTasks.BaseRequiredTags | Assets/Scripts/ECS/Tasks/EntityTask.cs:191 | the base required mask is Empty |
| EntityTasks.BaseIllegalTags | Assets/Scripts/ECS/Tasks/EntityTask.cs:193 | the base illegal mask is Empty |
| EntityTasks.RequiredTags | Assets/Scripts/ECS/Tasks/EntityTask.cs:164-170 | a position is required iff the base has it or it is one of the components' positions |
| EntityTasks.EntityTask.constructor | Assets/Scripts/ECS/Tasks/EntityTask.cs:181-189 | a fresh empty entity set; the required mask of the components; the empty illegal mask |
| EntityTasks.EntityTask.PrepareSubtasks | Assets/Scripts/ECS/Tasks/EntityTask.cs:195-199 | refills the set with the query and returns the number of matching entities |
| EntityTasks.EntityTask.SubtaskEntity | Assets/Scripts/ECS/Tasks/EntityTask.cs:201-202 | subtask `i` runs on `entities.Data[i]`; after PrepareSubtasks that entity matches the query, and the indices follow the entities in ascending order |
| EntityTasks.QueryAt | Assets/Scripts/ECS/Tasks/EntityTask.cs:201-202 | entry `i` of the query result matches the masks, and every earlier entry is a smaller id |
| Geometry.GetBounds | Assets/Scripts/Utils/Line.cs:24-29 | min ≤ max on every axis, and the box contains both ends |
| Geometry.BoundsSmallest | Assets/Scripts/Utils/Line.cs:24-29 | any box containing both ends contains the bounds |
| Geometry.BoundsSymmetric | Assets/Scripts/Utils/Line.cs:24-29 | swapping the ends gives the same bounds |
| Geometry.SqrMagnitudeProperties | Assets/Scripts/Utils/Line.cs:10 | the squared length is non-negative, zero when the ends coincide, and the same in both directions |
| Geometry.GetRay | Assets/Scripts/Utils/Line.cs:21-22 | the ray starts at the line's origin |
| Colliders.MakeLineTestData | Assets/Scripts/Utils/ColliderManager.cs:15-20 | the line together with its bounds and its ray |
| Colliders.Octants | Assets/Scripts/Utils/ColliderManager.cs:42-48 | eight empty leaves, leaf `i` over octant `i` |
| Colliders.SubdivideDeepens | Assets/Scripts/Utils/ColliderManager.cs:38-55 | subdividing a tree whose leaves are all at depth `d` makes one whose leaves are all at depth `d + 1`, each inner node with 8 children; volumes and entries are kept |
| Colliders.SubdivideNode | Assets/Scripts/Utils/ColliderManager.cs:38-55 | the loops compute Subdivided |
| Colliders.AddKeepsShape | Assets/Scripts/Utils/ColliderManager.cs:57-74 | adding keeps the shape, and entries stay at the leaves |
| Colliders.AddPlacement | Assets/Scripts/Utils/ColliderManager.cs:57-74 | a node's entries gain the entry iff it is a leaf and the box overlaps its volume and every ancestor's volume |
| Colliders.AddNode | Assets/Scripts/Utils/ColliderManager.cs:57-74 | the recursion computes Added |
| Colliders.ClearProperties | Assets/Scripts/Utils/ColliderManager.cs:108-113 | clearing empties every entry list, keeps volumes and shape, and is idempotent |
| Colliders.ClearUndoesAdd | Assets/Scripts/Utils/ColliderManager.cs:57-74 | clearing after an add is clearing before it |
| Colliders.ClearNode | Assets/Scripts/Utils/ColliderManager.cs:108-113 | the recursion computes Cleared |
| Colliders.FindSpec | Assets/Scripts/Utils/ColliderManager.cs:76-90 | the search finds an entity iff some entry, reached through overlapping nodes, passes the test; what it returns is such an entry's entity |
| Colliders.FindNode | Assets/Scripts/Utils/ColliderManager.cs:76-90 | the search's hit and entity are Find's, with entity 0 on a miss |
| Colliders.LineHit | Assets/Scripts/Utils/ColliderManager.cs:135-150 | as written: the bounds overlap, the ray hits at `t`, and `SqrMagnitude <= t * t` |
| Colliders.LineHitAt | Assets/Scripts/Utils/ColliderManager.cs:149 | for a ray hit at `t`, the as-written test holds iff `SqrMagnitude <= t * t`, and the intended one iff `t * t <= SqrMagnitude` |
| Colliders.LineTestMissesInside | Assets/Scripts/Utils/ColliderManager.cs:149 | a box hit at distance `t` shorter than the line fails the as-written test and passes the intended one |
| Colliders.LineHitIntended | Assets/Scripts/Utils/ColliderManager.cs:148-149 | corrected: the hit lies within the line, `t * t <= SqrMagnitude` |
| Colliders.ColliderManager.constructor | Assets/Scripts/Utils/ColliderManager.cs:155-160 | the root covers the area, every leaf is at depth `max(depth, 0)` with 8 children per inner node, and nothing is stored |
| Colliders.ColliderManager.Add | Assets/Scripts/Utils/ColliderManager.cs:162-165 | the tree becomes Added(old tree, entry) and keeps its shape |
| Colliders.ColliderManager.IntersectBox | Assets/Scripts/Utils/ColliderManager.cs:167-170 | hit iff a reachable entry's box overlaps the query; the entity is that of the first such entry in the depth-first search (Find), and 0 on a miss |
| Colliders.ColliderManager.IntersectLine | Assets/Scripts/Utils/ColliderManager.cs:172-176 | as written: hit iff a reachable entry passes LineHit, whose comparison accepts only hits at or past the line's end; the entity is Find's, and 0 on a miss |
| Colliders.ColliderManager.IntersectLineIntended | Assets/Scripts/Utils/ColliderManager.cs:172-176 | corrected: the same search with the hit required to lie within the line (LineHitIntended) |
| Colliders.ColliderManager.Clear | Assets/Scripts/Utils/ColliderManager.cs:178-181 | every entry list is emptied and the shape is kept |
| GraphicBatches.NewData | Assets/Scripts/Utils/Rendering/GraphicBatch.cs:15-19 | `capacity` default matrices, none used |
| GraphicBatches.DataAdd | Assets/Scripts/Utils/Rendering/GraphicBatch.cs:21-27 | throws iff Full (`Count >= capacity`); otherwise the matrix lands at slot `Count`, which grows by one, and no other slot changes |
| GraphicBatches.UploadedLength | Assets/Scripts/Utils/Rendering/GraphicBatch.cs:84-96 | the upload writes as many matrices as the buffers' counts add up to |
| GraphicBatches.GraphicBatch.constructor | Assets/Scripts/Utils/Rendering/GraphicBatch.cs:47-57 | `executorCount + 1` empty buffers of MaxRenderCount matrices each |
| GraphicBatches.GraphicBatch.Add | Assets/Scripts/Utils/Rendering/GraphicBatch.cs:76-80 | goes to buffer `execID + 1`, so the main thread's -1 uses buffer 0; an out-of-range id or a full buffer throws and changes nothing |
| GraphicBatches.GraphicBatch.UploadData | Assets/Scripts/Utils/Rendering/GraphicBatch.cs:82-98 | writes the used matrices buffer after buffer, and the instance count is their total; the buffers stay well formed |
| GraphicBatches.GraphicBatch.Clear | Assets/Scripts/Utils/Rendering/GraphicBatch.cs:117-121 | every buffer's count becomes 0, and the matrices are kept |
| RenderSets.FirstFit | Assets/Scripts/Utils/RenderSet.cs:45-56 | the first batch with the same graphic and room, or the list's length when none fits |
| RenderSets.NewBatch | Assets/Scripts/Utils/RenderSet.cs:59-61 | a full-size buffer holding the matrix in slot 0, count 1 |
| RenderSets.Appended | Assets/Scripts/Utils/RenderSet.cs:50-51 | the used part of the batch grows by the matrix |
| RenderSets.AddRaisesTotal | Assets/Scripts/Utils/RenderSet.cs:44-63 | each Add raises the graphic's total count by exactly 1, leaves every other graphic's total unchanged, and keeps every count in `[0, 1023]` |
| RenderSets.ClearedTotal | Assets/Scripts/Utils/RenderSet.cs:66-77 | a cleared list holds nothing of any graphic |
| RenderSets.Cleared | Assets/Scripts/Utils/RenderSet.cs:70-75 | every batch is kept, with count 0 |
| RenderSets.AddToList | Assets/Scripts/Utils/RenderSet.cs:44-63 | the search loop fills the first fitting batch, or appends a new one |
| RenderSets.ClearList | Assets/Scripts/Utils/RenderSet.cs:70-75 | the loop zeroes every count of one list |
| RenderSets.RenderSet.constructor | Assets/Scripts/Utils/RenderSet.cs:33-37 | no thread has a list yet |
| RenderSets.RenderSet.Add | Assets/Scripts/Utils/RenderSet.cs:39-64 | the calling thread's list, created empty on first use, becomes AddedTo of the old one; no other thread's list changes |
| RenderSets.RenderSet.Clear | Assets/Scripts/Utils/RenderSet.cs:66-77 | every thread's list is cleared and no list is added or dropped |
| TimelineTracks.NextSlot | Assets/Scripts/Profiler/TimelineTrack.cs:42 | the slot after `currentItem`, wrapping from 99 to 0 |
| TimelineTracks.TimelineTrack.constructor | Assets/Scripts/Profiler/TimelineTrack.cs:14-17 | 100 default items, count 0, current item -1, not started |
| TimelineTracks.TimelineTrack.StartTimer | Assets/Scripts/Profiler/TimelineTrack.cs:19-23 | the track is started and nothing else changes |
| TimelineTracks.TimelineTrack.GetItems | Assets/Scripts/Profiler/TimelineTrack.cs:25-34 | the first `count` items, in slot order |
| TimelineTracks.TimelineTrack.LogStartWork | Assets/Scripts/Profiler/TimelineTrack.cs:36-49 | only when started and the current item is not running: the current index moves on mod 100, count grows up to 100, and that slot gets a running item started at `now`; otherwise nothing changes |
| TimelineTracks.TimelineTrack.LogEndWork | Assets/Scripts/Profiler/TimelineTrack.cs:51-64 | a running current item stops at `now`; otherwise nothing changes |
| TimelineTracks.StartThenEnd | Assets/Scripts/Profiler/TimelineTrack.cs:36-64 | start then end records one stopped item with both times, in the next slot |
| ShiftRandom.FeedbackBit | Assets/Scripts/Utils/Random/ShiftRandomProvider.cs:41 | the XOR of state bits 0, 2, 3 and 5 is 0 or 1 |
| ShiftRandom.Shifted | Assets/Scripts/Utils/Random/ShiftRandomProvider.cs:42 | the new state is the old shifted right by one with the feedback bit at bit 15 |
| ShiftRandom.ShiftKeepsNonzero | Assets/Scripts/Utils/Random/ShiftRandomProvider.cs:41-42 | a nonzero state stays nonzero after a shift |
| ShiftRandom.ShiftedTimesNonzero | Assets/Scripts/Utils/Random/ShiftRandomProvider.cs:28-29 | a nonzero state stays nonzero after any number of shifts |
| ShiftRandom.ShiftRandomProvider.constructor | Assets/Scripts/Utils/Random/ShiftRandomProvider.cs:13-18 | seed 0 becomes state 1; any other seed is kept |
| ShiftRandom.ShiftRandomProvider.Shift | Assets/Scripts/Utils/Random/ShiftRandomProvider.cs:37-43 | `bit` is the feedback bit and the state is shifted once |
| ShiftRandom.ShiftRandomProvider.GetNext | Assets/Scripts/Utils/Random/ShiftRandomProvider.cs:20-35 | exactly 7 shifts, then `state / 65535`, which lies in `(0, 1]` |
| Logging.ExceptionMessage | Assets/Scripts/Utils/Logger.cs:20 | `Exception: '` + message + `'` |
| Logging.Logger.constructor | Assets/Scripts/Utils/Logger.cs:12-18 | an empty queue |
| Logging.Logger.Log | Assets/Scripts/Utils/Logger.cs:22-28 | the message is appended at the back of the queue |
| Logging.Logger.LogException | Assets/Scripts/Utils/Logger.cs:20 | the quoted exception message is appended |
| Logging.PrintStep | Assets/Scripts/Utils/Logger.cs:34-35 | one pass of the loop body: the front message is dequeued with a delegate, and the queue is left as it was without one (`?.` skips `Dequeue()`) |
| Logging.DelegateDrains | Assets/Scripts/Utils/Logger.cs:34-35 | with a delegate, `k` passes remove exactly the first `k` messages, or all of them |
| Logging.NoDelegateNeverDrains | Assets/Scripts/Utils/Logger.cs:34-35 | without a delegate a non-empty queue is unchanged after any number of passes, so the loop guard stays true forever |
| Logging.Logger.Print | Assets/Scripts/Utils/Logger.cs:30-37 | as written, for the calls that return: the delegate gets every queued message in FIFO order and the queue is emptied; without a delegate it returns only on an empty queue |
| Logging.Logger.PrintIntended | Assets/Scripts/Utils/Logger.cs:30-37 | corrected: the queue is always emptied; the delegate, if any, gets every message in FIFO order, and nothing is printed without one |

## Left out

- Locks, monitors, `Interlocked`, `ReaderWriterLockSlim`, `ConcurrentDictionary` and volatile fields: only the sequential semantics are modelled.
- `SubtaskRunner.WakeExecutors`, `Dispose`, and the executor threads: they start and stop threads.
- `SubtaskRunner.Help` only returns the task it takes, without running it. Running it calls into the executor (`ExecuteSubtask`) through `ExecuteInfo.Execute`, which is not modelled: `ExecuteInfo` (Assets/Scripts/ECS/Tasks/Runner/ExecuteInfo.cs) is modelled only as its data, the datatype `SubtaskRunners.ExecuteInfo`. The call in SubtaskRunner.cs passes `execID: -1`, which the parameterless `Execute()` of that file does not take.
- The profiler tracks that SubtaskExecutor and TaskExecuteHandle notify, and their `Stopwatch`: the elapsed time is a parameter of TimelineTrack's methods.
- `Environment.TickCount`, the thread id in RenderSet and the clock seed of ShiftRandomProvider's parameterless constructor are parameters.
- Reflection: a registry is built from the distinct, name-sorted list of types it would find.
- The abstract `PrepareSubtasks`, `ExecuteSubtask` and `Execute` members are modelled by their result (the subtask count) and by a log of the indices called, with an optional index whose call throws.
- ECS/Tasks/SubtaskRunner.cs, the runner with `Schedule(executor, min, max)` that TaskExecuteHandle calls, is not part of this model. The ranges handed to it are recorded instead.
- EntityTask calls `context.GetEntities(required, illegal, entitySet)`, the signature of EntityTagContainer. It is modelled against that container, not against the `IList` overload of EntityContext.
- Floating point: vectors and times are reals, so rounding, NaN and infinities are not modelled. `GetNext`'s float division is a real division.
- `AABox.Intersect`, `AABox.Subdivide`, the ray-box test and `FastNormalize` are not part of this model. They are parameters of ColliderManager (`BoxOps`).
- ColliderManager's `Node` and `Entry` are C# structs holding shared `List`s. Here they are values, so the in-place list mutation is modelled by returning the new tree, and no aliasing between copies is modelled.
- GraphicBatch and RenderSet: meshes, materials, GPU buffers, `Render`, `Dispose` and `SetData`'s own bounds checks are not modelled. The matrix type is a type parameter.
- SubtaskExecutors.SubtaskExecutor.constructor: a batch size of zero or less is excluded. With zero, C#'s `(n - 1) / batchSize` throws and the push loop never ends.
- TaskExecuteHandles.TaskExecuteHandle.constructor: a batch size of zero or less is excluded, for the same reason.
- SubtaskRunners.SubtaskRunner.constructor: a negative executor count is excluded, because C# throws when allocating an executor array of that size.
- GraphicBatches.GraphicBatch.constructor: `executorCount < -1` and a negative `MaxRenderCount` are excluded, because the C# array allocations throw.
- EntitySets.EntitySet.Add: adding to a full set (`Count == 65535`) is excluded, where C# throws `IndexOutOfRangeException`. Every caller adds at most one id per entity.
- EntityContexts.EntityContext.constructor and EntityContainers.EntityContainer.constructor: the component count is taken as given (at most 255), not computed by reflection.
- Entity id 65535: the C# `ushort` handle can be 65535, but every per-entity array has only 65535 slots, so the source throws `IndexOutOfRangeException` for that id in `Free`, `IsAllocated`, `IsFree`, `ComponentContainer.Get`/`Set`, `HasEntity` and the tag and mask methods. `Common.EntityId` excludes ids at or above 65535, so that error path is not modelled. The collider's handle (`Colliders.EntityID`) indexes no array and keeps the full range.
- Logging.Logger.Print: a call without a delegate on a non-empty queue is excluded by its precondition, because the source's loop never ends there (`Logging.NoDelegateNeverDrains`); a Dafny method must return.
- TimelineItem's own file is not part of this model. Only the three fields the track uses are.
- Component ids at or above 64 in the 64-bit masks alias to `id % 64`. This is modelled as C# computes it (`ComponentMasks.ComponentsAlias`), not prevented.
- `ComponentMask.Full` in the storage layer: this type has the same bodies as TagMask and shares its model, so TagMasks.FullHasEvery covers it.
- Line: its constructor and fields are the datatype `Geometry.Line`.
- TagMasks.Single: holds position `tag % 64` for every byte. Only tags below 64 give the mask of exactly that tag (TagMasks.SingleBelowLimit).
- ComponentReflectors.Create: for 256 component types the written code does not reach a count of 255. Its 255-slot id array makes registering the 256th type throw `IndexOutOfRangeException` before the `full` flag matters.

## Findings

| source | as written | input that shows it | evidently intended | confidence | as-written member | corrected member |
|---|---|---|---|---|---|---|
| Assets/Scripts/ECS/Storage/TagReflector.cs:43-45 | the counter is checked after the increment, so the 64th tag throws | a list of 64 distinct tag types | all 64 tags a mask can hold are accepted; a 65th throws | not executed | TagReflectors.Create | TagReflectors.CreateIntended |
| Assets/Scripts/ECS/Storage/ComponentReflector.cs:21-47 | the id array has 255 slots, so the 256th type indexes past it; the message promises 256 | a list of 256 distinct component types | 256 types register with a count of 256; a 257th throws | not executed | ComponentReflectors.Create | ComponentReflectors.CreateIntended |
| Assets/Scripts/ECS/Storage/ComponentMask.cs:66-70 | `CreateMask(c1, c2)` builds both operands from `c1`, so `c2` is ignored (EntityContext.GetMask<T1, T2> inherits this) | `c1 = 0`, `c2 = 1` | the mask holds both components | not executed | ComponentMasks.CreateMask2DropsSecond | ComponentMasks.CreateMask2IntendedHasBoth |
| Assets/Scripts/ECS/Tasks/Runner/SubtaskRunner.cs:49 | `TickCount % taskQueueCount` is negative for a negative `TickCount`, and then indexes queue -1 | two queues, `TickCount = -1` | a start queue in `[0, taskQueueCount)` | not executed | SubtaskRunners.NegativeTickCountThrows | SubtaskRunners.SubtaskRunner.HelpIntended |
| Assets/Scripts/Utils/ColliderManager.cs:148-149 | accepts a ray hit only when `SqrMagnitude <= rayTime * rayTime`, that is, beyond the line's end | the line (0,0,0)→(2,0,0) and a box whose ray hit is at `t = 1`: `4 <= 1` fails | the hit lies within the line: `rayTime * rayTime <= SqrMagnitude` | not executed | Colliders.LineTestMissesInside | Colliders.ColliderManager.IntersectLineIntended |
| Assets/Scripts/Utils/Logger.cs:34-35 | `printDelegate?.Invoke(logEntries.Dequeue())` skips the `Dequeue()` when there is no delegate, so the queue never shrinks and `Print` spins forever while holding the lock | `new Logger(null)`, `Log("a")`, `Print()` | every message is dequeued, and printed when there is a delegate | not executed | Logging.NoDelegateNeverDrains | Logging.Logger.PrintIntended |
