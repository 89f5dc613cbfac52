/** The bounded registry (src/main/java/org/pawele/ProcessManager.java): a
    queue of at most `capacity` processes in arrival order and the overflow
    strategy chosen at construction. */
module ProcessManagers {
  import opened Wrappers
  import opened Processes
  import opened ProcessQueues
  import opened Eviction

  /** `IllegalArgumentException` with its message. */
  datatype Error = InvalidArgument(message: string)

  const CapacityMessage := "Capacity must be positive"
  const NullPriorityMessage := "Process priority must be not null"

  /** `Integer.MAX_VALUE`, the retry cap of `addProcess`. */
  const IntMax: int := 0x7fff_ffff

  class ProcessManager {
    /** The backing queue, head (oldest) first. */
    var processes: seq<Process>
    const capacity: nat
    const overflowStrategy: OverflowStrategy

    /** Every id handed out by the id source so far. */
    ghost var issued: set<string>
    /** Every process torn down (`kill()`) so far, in order. */
    ghost var killed: seq<Process>

    ghost predicate Valid()
      reads this
    {
      && 1 <= capacity
      && |processes| <= capacity
      && DistinctIds(processes)
      && forall x :: x in processes ==> x.id in issued
    }

    /** The part of the two-argument constructor after the capacity check. */
    constructor Init(capacity: nat, overflowStrategy: OverflowStrategy)
      requires 1 <= capacity
      ensures Valid()
      ensures this.capacity == capacity && this.overflowStrategy == overflowStrategy
      ensures processes == [] && issued == {} && killed == []
    {
      this.capacity := capacity;
      this.overflowStrategy := overflowStrategy;
      processes := [];
      issued := {};
      killed := [];
    }

    /** `new ProcessManager(capacity, overflowStrategy)`: fails on a capacity
        below 1. A null strategy (`None`) is accepted; `tryToFindSpace` matches
        it against neither REMOVE_OLDEST nor REMOVE_OLDEST_LESS_IMPORTANT, so
        it behaves as SKIP and is stored as SKIP. */
    static method Create(capacity: int, overflowStrategy: Option<OverflowStrategy>) returns (r: Result<ProcessManager, Error>)
      ensures r.Err? <==> capacity < 1
      ensures r.Err? ==> r.error == InvalidArgument(CapacityMessage)
      ensures r.Ok? ==>
        && fresh(r.value) && r.value.Valid()
        && r.value.capacity == capacity
        && r.value.overflowStrategy == (if overflowStrategy.Some? then overflowStrategy.value else Skip)
        && r.value.processes == [] && r.value.issued == {} && r.value.killed == []
    {
      if capacity < 1 {
        return Err(InvalidArgument(CapacityMessage));
      }
      var strategy := if overflowStrategy.Some? then overflowStrategy.value else Skip;
      var m := new ProcessManager.Init(capacity, strategy);
      return Ok(m);
    }

    /** `new ProcessManager(capacity)`: the SKIP strategy by default. */
    static method CreateDefault(capacity: int) returns (r: Result<ProcessManager, Error>)
      ensures r.Err? <==> capacity < 1
      ensures r.Err? ==> r.error == InvalidArgument(CapacityMessage)
      ensures r.Ok? ==>
        && fresh(r.value) && r.value.Valid()
        && r.value.capacity == capacity && r.value.overflowStrategy == Skip
        && r.value.processes == [] && r.value.issued == {} && r.value.killed == []
    {
      r := Create(capacity, Some(Skip));
    }

    /** `processes.offer(p)`: appends `p` unless the queue is full. */
    method Offer(p: Process) returns (added: bool)
      requires Valid()
      requires p.id in issued
      requires forall x :: x in processes ==> x.id != p.id
      modifies this
      ensures Valid()
      ensures added <==> |old(processes)| < capacity
      ensures processes == if added then old(processes) + [p] else old(processes)
      ensures issued == old(issued) && killed == old(killed)
    {
      added := |processes| < capacity;
      if added {
        DistinctIdsSnoc(processes, p);
        processes := processes + [p];
      }
    }

    /** `processes.peek()`: the head, absent on an empty queue. */
    method Peek() returns (head: Option<Process>)
      ensures head.None? <==> processes == []
      ensures head.Some? ==> head.value == processes[0]
    {
      head := if processes == [] then None else Some(processes[0]);
    }

    /** `getProcesses()`: a snapshot of the queue in arrival order. */
    method GetProcesses() returns (snapshot: seq<Process>)
      ensures snapshot == processes
    {
      snapshot := processes;
    }

    /** `addProcess(priority)` with `freshId` as the value of the id source. */
    method AddProcess(priority: Option<Priority>, freshId: string) returns (r: Result<Option<Process>, Error>)
      requires Valid()
      requires freshId !in issued
      modifies this
      ensures Valid()
      ensures priority.None? ==>
        && r == Err(InvalidArgument(NullPriorityMessage))
        && processes == old(processes) && issued == old(issued) && killed == old(killed)
      ensures priority.Some? ==>
        var p := Process(freshId, priority.value);
        var next := Admit(old(processes), capacity, overflowStrategy, p);
        && issued == old(issued) + {freshId}
        && r == Ok(if next.Some? then Some(p) else None)
        && processes == (if next.Some? then next.value else old(processes))
        && killed == old(killed) + Evicted(old(processes), capacity, overflowStrategy, p.priority)
    {
      if priority.None? {
        return Err(InvalidArgument(NullPriorityMessage));
      }
      var process := NewProcess(priority.value, freshId);
      ghost var q := processes;
      ghost var next := Admit(q, capacity, overflowStrategy, process);
      issued := issued + {freshId};
      var added := Offer(process);
      var iteration := 0;
      while !added
        invariant Valid()
        invariant issued == old(issued) + {freshId}
        invariant !added ==> forall x :: x in processes ==> x.id != freshId
        invariant !added ==> iteration == 0 && processes == q && |q| == capacity && killed == old(killed)
        invariant added ==>
          next.Some? && processes == next.value &&
          killed == old(killed) + Evicted(q, capacity, overflowStrategy, process.priority)
        decreases if added then 0 else 1
      {
        // The panic of the source: unreachable, since one eviction always suffices.
        assert iteration != IntMax;
        iteration := iteration + 1;
        var found := TryToFindSpace(priority.value);
        if !found {
          break;
        }
        EvictionMakesRoom(q, capacity, overflowStrategy, process);
        added := Offer(process);
      }
      return Ok(if added then Some(process) else None);
    }

    /** `delete(process)`; `None` stands for a null argument. */
    method Delete(process: Option<Process>) returns (removed: bool)
      requires Valid()
      modifies this
      ensures Valid()
      ensures removed <==> process.Some? && process.value in old(processes)
      ensures processes == if removed then RemoveFirst(old(processes), process.value) else old(processes)
      ensures killed == old(killed) + (if removed then [process.value] else [])
      ensures issued == old(issued)
    {
      if process.None? {
        return false;
      }
      var p := process.value;
      removed := p in processes;
      if removed {
        RemoveFirstMembers(processes, p);
        RemoveFirstKeepsDistinctIds(processes, p);
        processes := RemoveFirst(processes, p);
        killed := killed + [p];
      }
    }

    /** `deleteAll()`: deletes each process of a snapshot, in order. */
    method DeleteAll() returns (any: bool)
      requires Valid()
      modifies this
      ensures Valid()
      ensures any <==> old(processes) != []
      ensures processes == []
      ensures killed == old(killed) + old(processes)
      ensures issued == old(issued)
    {
      var snapshot := GetProcesses();
      for i := 0 to |snapshot|
        invariant Valid()
        invariant processes == snapshot[i..]
        invariant killed == old(killed) + snapshot[..i]
        invariant issued == old(issued)
      {
        assert processes[1..] == snapshot[i + 1..];
        RemoveFirstHead(processes);
        var _ := Delete(Some(snapshot[i]));
        assert snapshot[..i + 1] == snapshot[..i] + [snapshot[i]];
      }
      return snapshot != [];
    }

    /** `deleteAllProcessesWithPriority(priority)`; `None` stands for null,
        which no process carries. */
    method DeleteAllProcessesWithPriority(priority: Option<Priority>) returns (any: bool)
      requires Valid()
      modifies this
      ensures Valid()
      ensures priority.None? ==> !any && processes == old(processes) && killed == old(killed)
      ensures priority.Some? ==>
        && (any <==> exists x :: x in old(processes) && x.priority == priority.value)
        && processes == WithoutPriority(old(processes), priority.value)
        && killed == old(killed) + WithPriority(old(processes), priority.value)
      ensures issued == old(issued)
    {
      if priority.None? {
        // Every process carries a priority, so the filter for null matches nothing.
        return false;
      }
      var snapshot := GetProcesses();
      var matching := WithPriority(snapshot, priority.value);
      WithoutEmpty(snapshot);
      for i := 0 to |matching|
        invariant Valid()
        invariant processes == Without(snapshot, matching[..i])
        invariant killed == old(killed) + matching[..i]
        invariant issued == old(issued)
      {
        var p := matching[i];
        DeleteStep(snapshot, priority.value, i);
        var _ := Delete(Some(p));
      }
      assert matching[..|matching|] == matching;
      WithPriorityMembers(snapshot, priority.value);
      WithoutMatching(snapshot, matching, priority.value);
      assert matching != [] ==> matching[0] in matching;
      return matching != [];
    }

    /** `tryToFindSpace(newPriority)`: deletes the strategy's victim; true
        when the caller should retry `offer`. */
    method TryToFindSpace(newPriority: Priority) returns (found: bool)
      requires Valid()
      modifies this
      ensures Valid()
      ensures found <==> overflowStrategy == RemoveOldest || Victim(old(processes), overflowStrategy, newPriority).Some?
      ensures processes == match Victim(old(processes), overflowStrategy, newPriority)
        case None => old(processes)
        case Some(v) => RemoveFirst(old(processes), v)
      ensures killed == old(killed) + match Victim(old(processes), overflowStrategy, newPriority)
        case None => []
        case Some(v) => [v]
      ensures issued == old(issued)
    {
      if overflowStrategy == RemoveOldest {
        var head := Peek();
        var _ := Delete(head);
        return true;
      }
      if overflowStrategy == RemoveOldestLessImportant {
        var candidate := FindOldestLessImportantProcess(processes, newPriority);
        if candidate.Some? {
          var _ := Delete(candidate);
        }
        return candidate.Some?;
      }
      return false;
    }
  }

  /** Once the strategy's victim is deleted from a full queue, the newcomer
      fits: the retried `offer` yields what admission prescribes. */
  lemma EvictionMakesRoom(q: seq<Process>, capacity: nat, strategy: OverflowStrategy, p: Process)
    requires |q| == capacity
    requires forall x :: x in q ==> x.id != p.id
    requires Victim(q, strategy, p.priority).Some?
    ensures var v := Victim(q, strategy, p.priority).value;
      && |RemoveFirst(q, v)| < capacity
      && (forall x :: x in RemoveFirst(q, v) ==> x.id != p.id)
      && Admit(q, capacity, strategy, p) == Some(RemoveFirst(q, v) + [p])
      && Evicted(q, capacity, strategy, p.priority) == [v]
  {
    var v := Victim(q, strategy, p.priority).value;
    RemoveFirstMembers(q, v);
  }

  /** One iteration of the bulk delete by priority: the `i`-th matching process
      is still queued, and deleting it extends the processes deleted so far. */
  lemma DeleteStep(snapshot: seq<Process>, priority: Priority, i: nat)
    requires DistinctIds(snapshot)
    requires i < |WithPriority(snapshot, priority)|
    ensures var matching := WithPriority(snapshot, priority);
      && matching[i] in Without(snapshot, matching[..i])
      && RemoveFirst(Without(snapshot, matching[..i]), matching[i]) == Without(snapshot, matching[..i + 1])
      && matching[..i + 1] == matching[..i] + [matching[i]]
  {
    var matching := WithPriority(snapshot, priority);
    WithPriorityKeepsDistinctIds(snapshot, priority);
    DistinctIdsNotEarlier(matching, i);
    WithPriorityMember(snapshot, priority, matching[i]);
    WithoutKeeps(snapshot, matching[..i], matching[i]);
    assert matching[..i + 1] == matching[..i] + [matching[i]];
    RemoveFirstOfWithout(snapshot, matching[..i], matching[i]);
  }
}
