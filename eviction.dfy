/** The overflow strategies of `ProcessManager` and the victim search they
    run when the queue is full, as functions of the queue's contents
    (src/main/java/org/pawele/ProcessManager.java, `tryToFindSpace`,
    `findOldestLessImportantProcess`, `OverflowStrategy`). */
module Eviction {
  import opened Wrappers
  import opened Processes
  import opened ProcessQueues

  datatype OverflowStrategy = Skip | RemoveOldest | RemoveOldestLessImportant

  /** The tiers the less-important search scans, in this order. */
  const LookupTiers: seq<Priority> := [Low, Medium]

  /** `q[i]` is the oldest process of `priority` in `q`. */
  ghost predicate OldestAt(q: seq<Process>, i: int, priority: Priority) {
    0 <= i < |q| && q[i].priority == priority &&
    forall j :: 0 <= j < i ==> q[j].priority != priority
  }

  lemma {:induction false} WithPriorityHead(q: seq<Process>, priority: Priority)
    requires WithPriority(q, priority) != []
    ensures exists i :: OldestAt(q, i, priority) && q[i] == WithPriority(q, priority)[0]
  {
    if q[0].priority == priority {
      assert OldestAt(q, 0, priority);
    } else {
      WithPriorityHead(q[1..], priority);
      var i :| OldestAt(q[1..], i, priority) && q[1..][i] == WithPriority(q[1..], priority)[0];
      assert OldestAt(q, i + 1, priority);
    }
  }

  /** `filter(p -> p.getPriority() == priority).findFirst()` over the queue. */
  function FirstWithPriority(q: seq<Process>, priority: Priority): (r: Option<Process>)
    ensures r.None? <==> forall x :: x in q ==> x.priority != priority
    ensures r.Some? ==> exists i :: OldestAt(q, i, priority) && q[i] == r.value
  {
    var matching := WithPriority(q, priority);
    WithPriorityMembers(q, priority);
    if matching == [] then None
    else
      WithPriorityHead(q, priority);
      Some(matching[0])
  }

  /** The `for` loop of `findOldestLessImportantProcess` from tier `tiers[0]` on:
      give up at the first tier the newcomer does not outrank, otherwise take
      the oldest process of that tier, or go on to the next tier. */
  function FindInTiers(q: seq<Process>, newPriority: Priority, tiers: seq<Priority>): (r: Option<Process>)
    ensures r.Some? ==> r.value in q && r.value.priority in tiers
    ensures r.Some? ==> newPriority.IsMoreImportantThan(r.value.priority)
    decreases |tiers|
  {
    if tiers == [] then None
    else if !newPriority.IsMoreImportantThan(tiers[0]) then None
    else match FirstWithPriority(q, tiers[0])
      case Some(candidate) => Some(candidate)
      case None => FindInTiers(q, newPriority, tiers[1..])
  }

  /** The victim of the less-important strategy for a newcomer of `newPriority`.
      Independently of the tier loop: a victim exists iff some process is less
      important than the newcomer, and then it is the oldest process of the
      least important priority present. */
  function FindOldestLessImportantProcess(q: seq<Process>, newPriority: Priority): (r: Option<Process>)
    ensures r.None? <==> forall x :: x in q ==> !newPriority.IsMoreImportantThan(x.priority)
    ensures r.Some? ==>
      && newPriority.IsMoreImportantThan(r.value.priority)
      && (forall x :: x in q ==> !r.value.priority.IsMoreImportantThan(x.priority))
      && exists i :: OldestAt(q, i, r.value.priority) && q[i] == r.value
  {
    var r := FindInTiers(q, newPriority, LookupTiers);
    assert newPriority == High && FirstWithPriority(q, Low).None? && r.Some? ==> r.value.priority == Medium;
    r
  }

  /** The tier rule as the tests pin it: a LOW newcomer finds nothing, a MEDIUM
      one only the oldest LOW, a HIGH one the oldest LOW, else the oldest MEDIUM. */
  lemma LessImportantTiers(q: seq<Process>)
    ensures FindOldestLessImportantProcess(q, Low) == None
    ensures FindOldestLessImportantProcess(q, Medium) == FirstWithPriority(q, Low)
    ensures FindOldestLessImportantProcess(q, High) ==
      if FirstWithPriority(q, Low).Some? then FirstWithPriority(q, Low) else FirstWithPriority(q, Medium)
  {
  }

  /** What `tryToFindSpace` deletes from a full queue, if anything. SKIP never
      deletes; REMOVE_OLDEST deletes the head (`peek()`, absent on an empty
      queue); REMOVE_OLDEST_LESS_IMPORTANT deletes the victim of the tiered search. */
  function Victim(q: seq<Process>, strategy: OverflowStrategy, newPriority: Priority): (r: Option<Process>)
    ensures r.Some? ==> r.value in q
    ensures strategy == Skip ==> r.None?
  {
    match strategy
    case Skip => None
    case RemoveOldest => if q == [] then None else Some(q[0])
    case RemoveOldestLessImportant => FindOldestLessImportantProcess(q, newPriority)
  }

  /** The queue after `offer(p)` and, while the queue is full, making room:
      `Some` of the new queue when `p` is admitted, `None` when it is rejected. */
  function Admit(q: seq<Process>, capacity: nat, strategy: OverflowStrategy, p: Process): (r: Option<seq<Process>>)
    ensures r.None? ==> capacity <= |q|
    ensures r.Some? ==> r.value != [] && r.value[|r.value| - 1] == p
    ensures r.Some? ==> |r.value| == if |q| < capacity then |q| + 1 else |q|
    ensures r.Some? && capacity <= |q| <==> Evicted(q, capacity, strategy, p.priority) != []
  {
    if |q| < capacity then Some(q + [p])
    else match Victim(q, strategy, p.priority)
      case None => None
      case Some(v) => Some(RemoveFirst(q, v) + [p])
  }

  /** The processes an admission of priority `newPriority` evicts, in order. */
  function Evicted(q: seq<Process>, capacity: nat, strategy: OverflowStrategy, newPriority: Priority): (r: seq<Process>)
    ensures |r| <= 1
    ensures r != [] ==> capacity <= |q| && r[0] in q
    ensures strategy == Skip ==> r == []
  {
    if |q| < capacity then []
    else match Victim(q, strategy, newPriority)
      case None => []
      case Some(v) => [v]
  }

  // ---------------------------------------------------------------------
  // Properties of admission
  // ---------------------------------------------------------------------

  /** Below capacity every strategy appends the newcomer and evicts nothing. */
  lemma AdmitBelowCapacity(q: seq<Process>, capacity: nat, strategy: OverflowStrategy, p: Process)
    requires |q| < capacity
    ensures Admit(q, capacity, strategy, p) == Some(q + [p])
    ensures Evicted(q, capacity, strategy, p.priority) == []
  {
  }

  /** SKIP on a full queue rejects and evicts nothing. */
  lemma AdmitSkipFull(q: seq<Process>, capacity: nat, p: Process)
    requires capacity <= |q|
    ensures Admit(q, capacity, Skip, p) == None
    ensures Evicted(q, capacity, Skip, p.priority) == []
  {
  }

  /** REMOVE_OLDEST on a full queue always admits, evicting the head. */
  lemma AdmitRemoveOldestFull(q: seq<Process>, capacity: nat, p: Process)
    requires 1 <= capacity <= |q|
    ensures Admit(q, capacity, RemoveOldest, p) == Some(q[1..] + [p])
    ensures Evicted(q, capacity, RemoveOldest, p.priority) == [q[0]]
  {
  }

  /** REMOVE_OLDEST_LESS_IMPORTANT on a full queue: when each priority
      succeeds, and that success removes exactly the victim and appends. */
  lemma AdmitRemoveOldestLessImportantFull(q: seq<Process>, capacity: nat, p: Process)
    requires capacity <= |q|
    ensures var r := Admit(q, capacity, RemoveOldestLessImportant, p);
      && (p.priority == Low ==> r.None?)
      && (p.priority == Medium ==> (r.Some? <==> exists x :: x in q && x.priority == Low))
      && (p.priority == High ==> (r.Some? <==> exists x :: x in q && x.priority != High))
    ensures var r := Admit(q, capacity, RemoveOldestLessImportant, p);
      r.None? ==> Evicted(q, capacity, RemoveOldestLessImportant, p.priority) == []
    ensures var r := Admit(q, capacity, RemoveOldestLessImportant, p);
      r.Some? ==> exists i ::
        && 0 <= i < |q|
        && r == Some(q[..i] + q[i + 1..] + [p])
        && Evicted(q, capacity, RemoveOldestLessImportant, p.priority) == [q[i]]
        && p.priority.IsMoreImportantThan(q[i].priority)
        && (forall x :: x in q ==> !q[i].priority.IsMoreImportantThan(x.priority))
        && OldestAt(q, i, q[i].priority)
  {
    var r := Admit(q, capacity, RemoveOldestLessImportant, p);
    var found := FindOldestLessImportantProcess(q, p.priority);
    if found.Some? {
      var v := found.value;
      var i :| OldestAt(q, i, v.priority) && q[i] == v;
      assert IndexOf(q, v) == Some(i);
      RemoveFirstAt(q, v);
      assert r == Some(q[..i] + q[i + 1..] + [p]);
    }
  }

  /** Admission keeps the queue within capacity and its ids distinct, puts
      the newcomer last, and brings in no process other than the newcomer. */
  lemma AdmitKeepsInvariant(q: seq<Process>, capacity: nat, strategy: OverflowStrategy, p: Process)
    requires |q| <= capacity && DistinctIds(q)
    requires forall x :: x in q ==> x.id != p.id
    ensures var r := Admit(q, capacity, strategy, p);
      r.Some? ==>
        && |r.value| <= capacity
        && DistinctIds(r.value)
        && r.value[|r.value| - 1] == p
        && forall x :: x in r.value ==> x == p || x in q
  {
    match Victim(q, strategy, p.priority)
    case None =>
      DistinctIdsSnoc(q, p);
    case Some(v) =>
      if |q| < capacity {
        DistinctIdsSnoc(q, p);
      } else {
        var rest := RemoveFirst(q, v);
        RemoveFirstMembers(q, v);
        RemoveFirstKeepsDistinctIds(q, v);
        DistinctIdsSnoc(rest, p);
      }
  }
}
