/** The registry's unit tests replayed as clients of the model: each method
    drives a fresh `ProcessManager` through the test's calls, and its
    postcondition is what the test asserts. The ids stand for the values the
    id source returns; the tests only rely on their being distinct. */
module Scenarios {
  import opened Wrappers
  import opened Processes
  import opened ProcessQueues
  import opened Eviction
  import opened ProcessManagers

  ghost predicate Distinct(ids: seq<string>) {
    forall i, j :: 0 <= i < j < |ids| ==> ids[i] != ids[j]
  }

  /** SKIP, capacity 1: the second LOW process is rejected. */
  method SkipRejectsWhenFull(a: string, b: string)
    returns (first: Result<Option<Process>, Error>, second: Result<Option<Process>, Error>, contents: seq<Process>)
    requires a != b
    ensures first == Ok(Some(Process(a, Low)))
    ensures second == Ok(None)
    ensures contents == [Process(a, Low)]
  {
    var created := ProcessManager.CreateDefault(1);
    var m := created.value;
    first := m.AddProcess(Some(Low), a);
    second := m.AddProcess(Some(Low), b);
    contents := m.GetProcesses();
  }

  /** Any strategy with room: the new process is returned with the requested priority. */
  method AddedWhileRoomRemains(a: string, strategy: OverflowStrategy)
    returns (added: Result<Option<Process>, Error>)
    ensures added.Ok? && added.value.Some?
    ensures added.value.value.priority == Low && added.value.value.id == a
  {
    var created := ProcessManager.Create(1, Some(strategy));
    var m := created.value;
    added := m.AddProcess(Some(Low), a);
  }

  /** A null strategy, capacity 1: like SKIP, the second process is rejected. */
  method NullStrategyRejectsWhenFull(a: string, b: string)
    returns (second: Result<Option<Process>, Error>, contents: seq<Process>)
    requires a != b
    ensures second == Ok(None)
    ensures contents == [Process(a, Low)]
  {
    var created := ProcessManager.Create(1, None);
    var m := created.value;
    var _ := m.AddProcess(Some(Low), a);
    second := m.AddProcess(Some(Low), b);
    contents := m.GetProcesses();
  }

  /** REMOVE_OLDEST, capacity 1: the second process replaces the first. */
  method RemoveOldestReplacesHead(a: string, b: string)
    returns (first: Result<Option<Process>, Error>, second: Result<Option<Process>, Error>, contents: seq<Process>)
    requires a != b
    ensures first == Ok(Some(Process(a, Low)))
    ensures second == Ok(Some(Process(b, Low)))
    ensures contents == [Process(b, Low)]
  {
    var created := ProcessManager.Create(1, Some(RemoveOldest));
    var m := created.value;
    first := m.AddProcess(Some(Low), a);
    second := m.AddProcess(Some(Low), b);
    contents := m.GetProcesses();
  }

  /** The queue HIGH MEDIUM LOW LOW MEDIUM of the capacity-5 tests. */
  function MixedQueue(ids: seq<string>): (q: seq<Process>)
    requires |ids| >= 5
  {
    [Process(ids[0], High), Process(ids[1], Medium), Process(ids[2], Low),
     Process(ids[3], Low), Process(ids[4], Medium)]
  }

  /** The oldest LOW process of the mixed queue is its third one. */
  lemma MixedQueueOldestLow(ids: seq<string>)
    requires |ids| >= 5
    ensures FirstWithPriority(MixedQueue(ids), Low) == Some(MixedQueue(ids)[2])
  {
    var q := MixedQueue(ids);
    assert WithPriority(q[4..], Low) == [];
    assert WithPriority(q[3..], Low) == [q[3]];
    assert WithPriority(q[2..], Low) == [q[2], q[3]];
    assert WithPriority(q[1..], Low) == [q[2], q[3]];
  }

  /** Removing the third process of the mixed queue keeps the other four in order. */
  lemma MixedQueueRemoveThird(ids: seq<string>)
    requires |ids| >= 5
    ensures var q := MixedQueue(ids); RemoveFirst(q, q[2]) == [q[0], q[1], q[3], q[4]]
  {
    var q := MixedQueue(ids);
    assert RemoveFirst(q[2..], q[2]) == q[3..];
    assert RemoveFirst(q[1..], q[2]) == [q[1]] + q[3..];
  }

  /** On the full mixed queue, HIGH and MEDIUM evict the first LOW; LOW is rejected. */
  lemma MixedQueueAdmit(ids: seq<string>, newPriority: Priority)
    requires |ids| >= 6
    ensures var q := MixedQueue(ids);
      Admit(q, 5, RemoveOldestLessImportant, Process(ids[5], newPriority)) ==
        if newPriority == Low then None
        else Some([q[0], q[1], q[3], q[4], Process(ids[5], newPriority)])
  {
    var q := MixedQueue(ids);
    MixedQueueOldestLow(ids);
    LessImportantTiers(q);
    MixedQueueRemoveThird(ids);
    var p := Process(ids[5], newPriority);
    if newPriority != Low {
      assert RemoveFirst(q, q[2]) + [p] == [q[0], q[1], q[3], q[4], p];
    }
  }

  /** `addProcess` on a registry with room: the newcomer is appended. */
  method AddWithRoom(m: ProcessManager, priority: Priority, id: string)
    requires m.Valid() && |m.processes| < m.capacity && id !in m.issued
    modifies m
    ensures m.Valid()
    ensures m.processes == old(m.processes) + [Process(id, priority)]
    ensures m.issued == old(m.issued) + {id}
  {
    AdmitBelowCapacity(m.processes, m.capacity, m.overflowStrategy, Process(id, priority));
    var _ := m.AddProcess(Some(priority), id);
  }

  /** A fresh REMOVE_OLDEST_LESS_IMPORTANT registry of capacity 5 filled
      with HIGH MEDIUM LOW LOW MEDIUM. */
  method NewMixedManager(ids: seq<string>) returns (m: ProcessManager)
    requires |ids| == 6 && Distinct(ids)
    ensures fresh(m) && m.Valid()
    ensures m.capacity == 5 && m.overflowStrategy == RemoveOldestLessImportant
    ensures m.processes == MixedQueue(ids) && ids[5] !in m.issued
  {
    var created := ProcessManager.Create(5, Some(RemoveOldestLessImportant));
    m := created.value;
    AddWithRoom(m, High, ids[0]);
    AddWithRoom(m, Medium, ids[1]);
    AddWithRoom(m, Low, ids[2]);
    AddWithRoom(m, Low, ids[3]);
    AddWithRoom(m, Medium, ids[4]);
  }

  /** REMOVE_OLDEST_LESS_IMPORTANT, capacity 5, queue HIGH MEDIUM LOW LOW MEDIUM:
      a HIGH or a MEDIUM newcomer evicts the first LOW; a LOW one is rejected. */
  method LessImportantWithLowPresent(ids: seq<string>, newPriority: Priority)
    returns (added: Result<Option<Process>, Error>, contents: seq<Process>)
    requires |ids| == 6 && Distinct(ids)
    ensures var q := MixedQueue(ids);
      if newPriority == Low then
        added == Ok(None) && contents == q
      else
        && added == Ok(Some(Process(ids[5], newPriority)))
        && contents == [q[0], q[1], q[3], q[4], Process(ids[5], newPriority)]
  {
    var m := NewMixedManager(ids);
    MixedQueueAdmit(ids, newPriority);
    added := m.AddProcess(Some(newPriority), ids[5]);
    contents := m.GetProcesses();
  }

  /** The queue HIGH MEDIUM MEDIUM HIGH of the capacity-4 tests. */
  function NoLowQueue(ids: seq<string>): (q: seq<Process>)
    requires |ids| >= 4
  {
    [Process(ids[0], High), Process(ids[1], Medium), Process(ids[2], Medium), Process(ids[3], High)]
  }

  /** The queue without LOW has no LOW, and its oldest MEDIUM is its second process. */
  lemma NoLowQueueOldest(ids: seq<string>)
    requires |ids| >= 4
    ensures var q := NoLowQueue(ids);
      FirstWithPriority(q, Low) == None && FirstWithPriority(q, Medium) == Some(q[1])
  {
    var q := NoLowQueue(ids);
    assert WithPriority(q[3..], Low) == [];
    assert WithPriority(q[2..], Low) == [];
    assert WithPriority(q[1..], Low) == [];
    assert WithPriority(q[3..], Medium) == [];
    assert WithPriority(q[1..], Medium) == [q[1], q[2]];
  }

  /** On the full queue without LOW, only HIGH gets in, evicting the first MEDIUM. */
  lemma NoLowQueueAdmit(ids: seq<string>, newPriority: Priority)
    requires |ids| >= 5
    ensures var q := NoLowQueue(ids);
      Admit(q, 4, RemoveOldestLessImportant, Process(ids[4], newPriority)) ==
        if newPriority == High then Some([q[0], q[2], q[3], Process(ids[4], High)])
        else None
  {
    var q := NoLowQueue(ids);
    NoLowQueueOldest(ids);
    LessImportantTiers(q);
    assert RemoveFirst(q[1..], q[1]) == q[2..];
    assert RemoveFirst(q, q[1]) == [q[0], q[2], q[3]];
    var p := Process(ids[4], newPriority);
    if newPriority == High {
      assert RemoveFirst(q, q[1]) + [p] == [q[0], q[2], q[3], p];
    }
  }

  /** A fresh REMOVE_OLDEST_LESS_IMPORTANT registry of capacity 4 filled
      with HIGH MEDIUM MEDIUM HIGH. */
  method NewNoLowManager(ids: seq<string>) returns (m: ProcessManager)
    requires |ids| == 5 && Distinct(ids)
    ensures fresh(m) && m.Valid()
    ensures m.capacity == 4 && m.overflowStrategy == RemoveOldestLessImportant
    ensures m.processes == NoLowQueue(ids) && ids[4] !in m.issued
  {
    var created := ProcessManager.Create(4, Some(RemoveOldestLessImportant));
    m := created.value;
    AddWithRoom(m, High, ids[0]);
    AddWithRoom(m, Medium, ids[1]);
    AddWithRoom(m, Medium, ids[2]);
    AddWithRoom(m, High, ids[3]);
  }

  /** REMOVE_OLDEST_LESS_IMPORTANT, capacity 4, queue HIGH MEDIUM MEDIUM HIGH:
      a HIGH newcomer evicts the first MEDIUM; a MEDIUM or LOW one is rejected. */
  method LessImportantWithoutLow(ids: seq<string>, newPriority: Priority)
    returns (added: Result<Option<Process>, Error>, contents: seq<Process>)
    requires |ids| == 5 && Distinct(ids)
    ensures var q := NoLowQueue(ids);
      if newPriority == High then
        && added == Ok(Some(Process(ids[4], High)))
        && contents == [q[0], q[2], q[3], Process(ids[4], High)]
      else
        added == Ok(None) && contents == q
  {
    var m := NewNoLowManager(ids);
    NoLowQueueAdmit(ids, newPriority);
    added := m.AddProcess(Some(newPriority), ids[4]);
    contents := m.GetProcesses();
  }

  /** REMOVE_OLDEST_LESS_IMPORTANT, capacity 1, only HIGH: another HIGH is rejected. */
  method LessImportantOnlyHigh(a: string, b: string)
    returns (added: Result<Option<Process>, Error>, contents: seq<Process>)
    requires a != b
    ensures added == Ok(None)
    ensures contents == [Process(a, High)]
  {
    var created := ProcessManager.Create(1, Some(RemoveOldestLessImportant));
    var m := created.value;
    var _ := m.AddProcess(Some(High), a);
    added := m.AddProcess(Some(High), b);
    contents := m.GetProcesses();
  }

  /** A capacity below 1 and a null priority are both refused. */
  method InvalidArguments(capacity: int, strategy: OverflowStrategy, a: string)
    returns (created: Result<ProcessManager, Error>, added: Result<Option<Process>, Error>)
    requires capacity < 1
    ensures created == Err(InvalidArgument("Capacity must be positive"))
    ensures added == Err(InvalidArgument("Process priority must be not null"))
  {
    created := ProcessManager.Create(capacity, Some(strategy));
    var valid := ProcessManager.Create(1, Some(strategy));
    var m := valid.value;
    added := m.AddProcess(None, a);
  }

  /** `getProcesses` lists nothing on a new registry, then the processes in arrival order. */
  method ListInArrivalOrder(a: string, b: string, strategy: OverflowStrategy)
    returns (before: seq<Process>, after: seq<Process>)
    requires a != b
    ensures before == []
    ensures after == [Process(a, Low), Process(b, Low)]
  {
    var created := ProcessManager.Create(2, Some(strategy));
    var m := created.value;
    before := m.GetProcesses();
    AddWithRoom(m, Low, a);
    AddWithRoom(m, Low, b);
    after := m.GetProcesses();
  }

  /** Deleting a present process removes just it; deleting a foreign one is a no-op. */
  method DeleteOne(ids: seq<string>, strategy: OverflowStrategy)
    returns (deleted: bool, notDeleted: bool, contents: seq<Process>)
    requires |ids| == 3 && Distinct(ids)
    ensures deleted && !notDeleted
    ensures contents == [Process(ids[0], High)]
  {
    var created := ProcessManager.Create(3, Some(strategy));
    var m := created.value;
    var _ := m.AddProcess(Some(High), ids[0]);
    var _ := m.AddProcess(Some(Medium), ids[1]);
    deleted := m.Delete(Some(Process(ids[1], Medium)));
    notDeleted := m.Delete(Some(Process(ids[2], Low)));
    contents := m.GetProcesses();
  }

  /** `deleteAll` reports whether there was anything to delete and empties the queue. */
  method DeleteEverything(ids: seq<string>, strategy: OverflowStrategy)
    returns (first: bool, second: bool, contents: seq<Process>)
    requires |ids| == 3 && Distinct(ids)
    ensures first && !second && contents == []
  {
    var created := ProcessManager.Create(3, Some(strategy));
    var m := created.value;
    AddWithRoom(m, High, ids[0]);
    AddWithRoom(m, High, ids[1]);
    AddWithRoom(m, High, ids[2]);
    first := m.DeleteAll();
    second := m.DeleteAll();
    contents := m.GetProcesses();
  }

  /** The queue LOW HIGH HIGH MEDIUM of the bulk-delete test. */
  function GroupQueue(ids: seq<string>): (q: seq<Process>)
    requires |ids| >= 4
  {
    [Process(ids[0], Low), Process(ids[1], High), Process(ids[2], High), Process(ids[3], Medium)]
  }

  /** Filtering the bulk-delete queue by HIGH, once and twice. */
  lemma GroupQueueFilters(ids: seq<string>)
    requires |ids| >= 4
    ensures var q := GroupQueue(ids);
      && WithPriority(q, High) == [q[1], q[2]]
      && WithoutPriority(q, High) == [q[0], q[3]]
      && WithPriority(WithoutPriority(q, High), High) == []
      && WithoutPriority(WithoutPriority(q, High), High) == [q[0], q[3]]
  {
    var q := GroupQueue(ids);
    assert WithPriority(q[3..], High) == [];
    assert WithPriority(q[2..], High) == [q[2]];
    assert WithPriority(q[1..], High) == [q[1], q[2]];
    assert WithoutPriority(q[3..], High) == [q[3]];
    assert WithoutPriority(q[2..], High) == [q[3]];
    assert WithoutPriority(q[1..], High) == [q[3]];
    var r := [q[0], q[3]];
    assert WithPriority(r[1..], High) == [];
    assert WithoutPriority(r[1..], High) == [q[3]];
  }

  /** Deleting the HIGH group keeps LOW and MEDIUM in order; deleting it again finds nothing. */
  method DeleteGroup(ids: seq<string>)
    returns (first: bool, second: bool, contents: seq<Process>)
    requires |ids| == 4 && Distinct(ids)
    ensures first && !second
    ensures contents == [Process(ids[0], Low), Process(ids[3], Medium)]
  {
    var created := ProcessManager.Create(4, Some(RemoveOldestLessImportant));
    var m := created.value;
    AddWithRoom(m, Low, ids[0]);
    AddWithRoom(m, High, ids[1]);
    AddWithRoom(m, High, ids[2]);
    AddWithRoom(m, Medium, ids[3]);
    ghost var q := GroupQueue(ids);
    assert m.processes == q;
    GroupQueueFilters(ids);
    first := m.DeleteAllProcessesWithPriority(Some(High));
    assert q[1] in q;
    assert m.processes == [q[0], q[3]];
    second := m.DeleteAllProcessesWithPriority(Some(High));
    contents := m.GetProcesses();
  }

  /** Deleting a priority no process carries reports false and keeps the queue. */
  method DeleteAbsentGroup(a: string, b: string)
    returns (any: bool, contents: seq<Process>)
    requires a != b
    ensures !any
    ensures contents == [Process(a, Low), Process(b, Medium)]
  {
    var created := ProcessManager.Create(4, Some(RemoveOldestLessImportant));
    var m := created.value;
    AddWithRoom(m, Low, a);
    AddWithRoom(m, Medium, b);
    ghost var q := m.processes;
    assert WithoutPriority(q[1..], High) == q[1..];
    any := m.DeleteAllProcessesWithPriority(Some(High));
    contents := m.GetProcesses();
  }
}
