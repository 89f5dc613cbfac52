# Bounded priority-aware process registry, in Dafny

This project models `ProcessManager`, a registry that keeps at most
`capacity` processes in arrival order. Each `Process` has an id and a
`Priority`: LOW < MEDIUM < HIGH, in declaration order.

When the queue is full, `addProcess` resolves the overflow by the strategy
chosen at construction:

- SKIP rejects the newcomer.
- REMOVE_OLDEST evicts the head.
- REMOVE_OLDEST_LESS_IMPORTANT scans the tiers LOW, then MEDIUM. It gives up
  at the first tier the newcomer does not outrank. Otherwise it evicts the
  oldest process of the first tier that has one.

Processes can be removed one at a time, all at once, or by priority. Each
removal keeps the survivors in order. Every removed process is torn down
with `kill()`.

Modules:

- `Wrappers` (`wrappers.dfy`): `Option`, which stands for `Optional` and for
  a nullable argument, and `Result`, which stands for a value or an
  `IllegalArgumentException`.
- `Processes` (`process.dfy`): `Priority`, `isMoreImportantThan` and the
  `Process` value.
- `ProcessQueues` (`queue.dfy`): the backing queue's contents as a
  `seq<Process>`, head first. It holds `remove(Object)` (`RemoveFirst`),
  the stream filters (`WithPriority`, `WithoutPriority`, `Without`) and the
  distinct-id invariant.
- `Eviction` (`eviction.dfy`): `OverflowStrategy`, the tiered search, and
  the specification functions `Victim`, `Admit` and `Evicted`. These say
  what one `addProcess` does to the queue.
- `ProcessManagers` (`manager.dfy`): the class `ProcessManager`. Its field
  `processes` is reassigned by `offer` and `remove`. It also has two ghost
  fields: `issued`, the ids handed out so far, and `killed`, the processes
  torn down so far, in order. `Valid()` holds the invariant:
  - capacity is at least 1;
  - the queue holds at most `capacity` processes;
  - no two queued processes share an id;
  - every queued id was issued.

  Each method is proved against the specification functions. The retry loop
  of `addProcess` is kept as a `while` loop: after one successful eviction
  the queue is below capacity, so the next `offer` succeeds, and the loop
  runs at most once.
- `Scenarios` (`scenarios.dfy`): the unit tests, replayed as client methods.
  Each postcondition pins at least what its test asserts. Some methods merge
  two tests run on the same state, and some also pin the final queue.

A Java `null` priority or process argument is `None`. A `null` overflow
strategy is `None` too; `Create` stores it as SKIP, because `tryToFindSpace`
treats it exactly like SKIP. The UUID source is a `freshId` parameter
that the caller guarantees was never issued before.

## Model

| member | source | states |
|---|---|---|
| Processes.Priority.Ordinal | src/main/java/org/pawele/Process.java:23-26 | ordinals lie below 3; LOW is exactly ordinal 0 and HIGH exactly ordinal 2 |
| Processes.NewProcess | src/main/java/org/pawele/Process.java:4-18 | the process carries exactly the id and priority it was built from, as `getId` and `getPriority` return them |
| Processes.Priority.IsMoreImportantThan | src/main/java/org/pawele/Process.java:27-29 | by cases over the declaration order: true exactly when HIGH meets MEDIUM or LOW, or MEDIUM meets LOW |
| Processes.IsMoreImportantThanIsIrreflexive | src/main/java/org/pawele/Process.java:27-29 | no priority is more important than itself |
| Processes.IsMoreImportantThanIsAsymmetric | src/main/java/org/pawele/Process.java:27-29 | if a outranks b, then b does not outrank a |
| Processes.IsMoreImportantThanIsTransitive | src/main/java/org/pawele/Process.java:27-29 | outranking is transitive |
| Processes.IsMoreImportantThanIsTotal | src/main/java/org/pawele/Process.java:27-29 | two priorities differ iff one of them outranks the other |
| Processes.DeclarationOrder | src/main/java/org/pawele/Process.java:23-29 | HIGH > MEDIUM > LOW; LOW outranks nothing; nothing outranks HIGH; HIGH outranks every other priority; a priority outranks LOW iff it is not LOW |
| ProcessQueues.IndexOf | src/main/java/org/pawele/ProcessManager.java:68 | absent iff the process is not queued; otherwise the position of its first occurrence |
| ProcessQueues.RemoveFirstAt | src/main/java/org/pawele/ProcessManager.java:68 | `remove` cuts the queue at the first occurrence, `q[..i] + q[i+1..]`, and leaves it whole when the process is absent |
| ProcessQueues.RemoveFirst | src/main/java/org/pawele/ProcessManager.java:68 | removing a queued process shortens the queue by one; removing an absent one changes nothing |
| ProcessQueues.RemoveFirstHead | src/main/java/org/pawele/ProcessManager.java:104-105 | removing the head drops just the first element |
| ProcessQueues.RemoveFirstMembers | src/main/java/org/pawele/ProcessManager.java:68 | every survivor was queued, and every other queued process survives |
| ProcessQueues.RemoveFirstKeepsDistinctIds | src/main/java/org/pawele/ProcessManager.java:68 | removal keeps the queued ids pairwise distinct |
| ProcessQueues.DistinctIdsSnoc | src/main/java/org/pawele/ProcessManager.java:40-44 | appending a process whose id is not queued keeps the ids distinct |
| ProcessQueues.WithPriority | src/main/java/org/pawele/ProcessManager.java:89-92 | the filtered list is never longer than the queue; its members are given by `WithPriorityMembers` |
| ProcessQueues.WithoutPriority | src/main/java/org/pawele/ProcessManager.java:88-97 | it and the `WithPriority` filter together account for exactly the queue's length |
| ProcessQueues.WithoutEmpty | src/main/java/org/pawele/ProcessManager.java:89-93 | before the first delete of the bulk loop, nothing is dropped and the queue is whole |
| ProcessQueues.WithPriorityMembers | src/main/java/org/pawele/ProcessManager.java:89-92 | the filter keeps exactly the queued processes of that priority |
| ProcessQueues.WithPriorityKeepsDistinctIds | src/main/java/org/pawele/ProcessManager.java:89-92 | the filtered snapshot has distinct ids |
| ProcessQueues.WithoutPriorityMembers | src/main/java/org/pawele/ProcessManager.java:88-97 | the survivors of a bulk delete are exactly the queued processes of another priority |
| ProcessQueues.WithoutMembers | src/main/java/org/pawele/ProcessManager.java:93-95 | the survivors of deleting a list are exactly the queued processes not in the list |
| ProcessQueues.RemoveFirstOfWithout | src/main/java/org/pawele/ProcessManager.java:93-95 | deleting one more process of the snapshot extends the deleted list by that process |
| ProcessQueues.WithoutMatching | src/main/java/org/pawele/ProcessManager.java:88-97 | deleting every process of the snapshot that has the priority leaves exactly the processes of other priorities, in order |
| Eviction.FirstWithPriority | src/main/java/org/pawele/ProcessManager.java:122-124 | absent iff no process has the priority; otherwise the oldest process that has it |
| Eviction.FindInTiers | src/main/java/org/pawele/ProcessManager.java:118-131 | a found victim is queued, lies in a scanned tier, and is outranked by the newcomer |
| Eviction.LessImportantTiers | src/main/java/org/pawele/ProcessManager.java:117-132 | a LOW newcomer finds nothing; a MEDIUM one finds the oldest LOW; a HIGH one finds the oldest LOW, or else the oldest MEDIUM |
| Eviction.FindOldestLessImportantProcess | src/main/java/org/pawele/ProcessManager.java:117-132 | a victim exists iff some process is less important than the newcomer; it is then outranked by the newcomer and is the oldest process of the least important priority present |
| Eviction.Victim | src/main/java/org/pawele/ProcessManager.java:99-115 | a victim is always queued, and SKIP never names one |
| Eviction.Admit | src/main/java/org/pawele/ProcessManager.java:36-58 | only a full queue rejects; an admitted newcomer is last; admission grows a queue with room by one and keeps a full queue's length; a full queue admits exactly when something is evicted |
| Eviction.Evicted | src/main/java/org/pawele/ProcessManager.java:44-52 | at most one process is evicted, only from a full queue, and always a queued one; SKIP evicts nothing |
| Eviction.AdmitBelowCapacity | src/main/java/org/pawele/ProcessManager.java:44 | below capacity, every strategy appends the newcomer and evicts nothing |
| Eviction.AdmitSkipFull | src/main/java/org/pawele/ProcessManager.java:49-51 | SKIP on a full queue rejects the newcomer and evicts nothing |
| Eviction.AdmitRemoveOldestFull | src/main/java/org/pawele/ProcessManager.java:101-106 | REMOVE_OLDEST on a full queue yields `q[1..] + [new]` and evicts the head |
| Eviction.AdmitRemoveOldestLessImportantFull | src/main/java/org/pawele/ProcessManager.java:108-113 | on a full queue, LOW always fails; MEDIUM succeeds iff a LOW is queued; HIGH succeeds iff a non-HIGH is queued. Success removes exactly one victim, appends the newcomer, and evicts just that victim, which is the oldest of the least important priority. Failure evicts nothing |
| Eviction.AdmitKeepsInvariant | src/main/java/org/pawele/ProcessManager.java:36-58 | an admission stays within capacity, keeps ids distinct, puts the newcomer last and brings in no other process |
| ProcessManagers.ProcessManager.Create | src/main/java/org/pawele/ProcessManager.java:28-34 | fails with "Capacity must be positive" iff capacity < 1; otherwise the registry is empty and valid, with the given capacity and strategy, where a null strategy is SKIP |
| ProcessManagers.ProcessManager.CreateDefault | src/main/java/org/pawele/ProcessManager.java:24-26 | as `Create`, with SKIP |
| ProcessManagers.ProcessManager.Init | src/main/java/org/pawele/ProcessManager.java:32-33 | an empty, valid registry with the given capacity and strategy |
| ProcessManagers.ProcessManager.Offer | src/main/java/org/pawele/ProcessManager.java:44 | appends iff the queue is below capacity, else changes nothing, and keeps the invariant |
| ProcessManagers.ProcessManager.Peek | src/main/java/org/pawele/ProcessManager.java:104 | absent iff the queue is empty; otherwise the head |
| ProcessManagers.ProcessManager.GetProcesses | src/main/java/org/pawele/ProcessManager.java:60-62 | the snapshot is the queue in arrival order |
| ProcessManagers.ProcessManager.AddProcess | src/main/java/org/pawele/ProcessManager.java:36-58 | a missing priority fails with "Process priority must be not null" and changes nothing. Otherwise the new queue, the result and the torn-down processes are those of `Admit` and `Evicted`, and the invariant holds |
| ProcessManagers.ProcessManager.Delete | src/main/java/org/pawele/ProcessManager.java:64-73 | true iff the argument is present and queued; then exactly its first occurrence is removed and it is torn down once; otherwise nothing changes |
| ProcessManagers.ProcessManager.DeleteAll | src/main/java/org/pawele/ProcessManager.java:75-81 | empties the queue, tears down every process in arrival order, and returns whether the queue was non-empty |
| ProcessManagers.ProcessManager.DeleteAllProcessesWithPriority | src/main/java/org/pawele/ProcessManager.java:88-97 | leaves exactly the processes of other priorities, in order; tears down those of the priority, in order; returns whether there were any; a null priority matches nothing |
| ProcessManagers.ProcessManager.TryToFindSpace | src/main/java/org/pawele/ProcessManager.java:99-115 | deletes the strategy's victim, if any; returns true for REMOVE_OLDEST and otherwise iff a victim was found |
| ProcessManagers.EvictionMakesRoom | src/main/java/org/pawele/ProcessManager.java:44-52 | once the victim is deleted from a full queue, the retried `offer` fits and its outcome is the one `Admit` and `Evicted` prescribe |
| ProcessManagers.DeleteStep | src/main/java/org/pawele/ProcessManager.java:93-95 | each matching process of the snapshot is still queued when its turn comes, and deleting it extends the deleted prefix |
| Scenarios.SkipRejectsWhenFull | src/test/java/org/pawele/ProcessManagerTest.java:11-18 | SKIP with capacity 1: a second LOW is rejected and the first stays |
| Scenarios.AddedWhileRoomRemains | src/test/java/org/pawele/BaseProcessManagerTest.java:36-48 | with room, the newcomer is returned with the requested priority |
| Scenarios.NullStrategyRejectsWhenFull | src/main/java/org/pawele/ProcessManager.java:99-115 | a registry built with a null strategy rejects the second process at capacity 1, as SKIP does |
| Scenarios.RemoveOldestReplacesHead | src/test/java/org/pawele/ProcessManagerWithRemoveOldestStrategyTest.java:16-24 | REMOVE_OLDEST with capacity 1: the second process replaces the first |
| Scenarios.MixedQueueAdmit | src/test/java/org/pawele/ProcessManagerWithRemoveOldestLessImportantStrategyTest.java:16-103 | on HIGH MEDIUM LOW LOW MEDIUM, a LOW newcomer is rejected, and a MEDIUM or HIGH one evicts the first LOW |
| Scenarios.LessImportantWithLowPresent | src/test/java/org/pawele/ProcessManagerWithRemoveOldestLessImportantStrategyTest.java:16-103 | the three capacity-5 tests: results and final queue contents |
| Scenarios.NoLowQueueAdmit | src/test/java/org/pawele/ProcessManagerWithRemoveOldestLessImportantStrategyTest.java:106-157 | on HIGH MEDIUM MEDIUM HIGH, only a HIGH newcomer gets in, evicting the first MEDIUM |
| Scenarios.LessImportantWithoutLow | src/test/java/org/pawele/ProcessManagerWithRemoveOldestLessImportantStrategyTest.java:106-157 | the two capacity-4 tests: results and final queue contents |
| Scenarios.LessImportantOnlyHigh | src/test/java/org/pawele/ProcessManagerWithRemoveOldestLessImportantStrategyTest.java:160-175 | with only HIGH queued, another HIGH is rejected |
| Scenarios.InvalidArguments | src/test/java/org/pawele/BaseProcessManagerTest.java:13-33 | a capacity below 1 and a null priority are refused with their messages |
| Scenarios.ListInArrivalOrder | src/test/java/org/pawele/BaseProcessManagerTest.java:69-92 | the list is empty at first, then holds the processes in arrival order |
| Scenarios.DeleteOne | src/test/java/org/pawele/BaseProcessManagerTest.java:95-125 | deleting a queued process removes just it; deleting a foreign one is refused |
| Scenarios.DeleteEverything | src/test/java/org/pawele/BaseProcessManagerTest.java:128-154 | `deleteAll` on three processes reports true and empties the queue; on the empty queue it reports false |
| Scenarios.GroupQueueFilters | src/test/java/org/pawele/BaseProcessManagerTest.java:157-174 | the HIGH filters of LOW HIGH HIGH MEDIUM, applied once and twice |
| Scenarios.DeleteGroup | src/test/java/org/pawele/BaseProcessManagerTest.java:157-174 | deleting the HIGH group keeps LOW then MEDIUM and reports true; repeating it reports false |
| Scenarios.DeleteAbsentGroup | src/test/java/org/pawele/BaseProcessManagerTest.java:177-192 | deleting a priority nobody has reports false and keeps the queue |

## Left out

- Thread safety is not modelled. The source relies on `LinkedBlockingQueue`
  being thread-safe, and its comment notes the race between eviction and
  insertion. The model is sequential, so a retry loop provably runs at most
  once. The multi-threaded stress test is not modelled either.
- The UUID source is a foreign call. It is the `freshId` parameter, and the
  caller must guarantee the id was never issued. The uniqueness test
  (`createdProcessesShouldHaveUniqueId`) is therefore an assumption here,
  not a property. The tests also check that ids are not blank; the model
  does not, since `freshId` may be any string, including the empty one.
- `kill()` is an empty hook. The model records each call in the ghost
  sequence `killed`.
- ProcessManagers.ProcessManager.Delete matches by value (id and priority),
  whereas the source matches by object identity. Every queued id is
  distinct and every id is issued only once, so the two agree on every
  process the registry handed out. A separately built `Process` that reuses
  a queued id and priority would be removed by the model but not by the
  source.
- ProcessManagers.ProcessManager.AddProcess: the `Integer.MAX_VALUE` panic
  is an assertion that the verifier proves unreachable, so the model has no
  panic error.
- ProcessManagers.ProcessManager.Init requires a capacity of at
  least 1, because a Dafny constructor cannot fail. The capacity check and
  its exception live in `Create`.
- ProcessManagers.ProcessManager.Create stores SKIP for a null strategy,
  where the source stores `null`. The strategy is read only by
  `tryToFindSpace`, which treats `null` exactly as SKIP, so no behaviour
  differs.
- ProcessManagers.ProcessManager.DeleteAllProcessesWithPriority returns
  false at once on a null priority. The source filters the snapshot for
  `null` and finds nothing, which gives the same outcome.
- The capacity of `LinkedBlockingQueue` is an `int`. The model's capacity
  is unbounded, so it has no integer-width limit.
