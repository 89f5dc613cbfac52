/** The operations of the registry's backing queue (a `LinkedBlockingQueue`
    in the source) and of the stream filters run over it, as functions on
    the queue's contents in arrival order, head first. */
module ProcessQueues {
  import opened Wrappers
  import opened Processes

  /** No two processes in `q` share an id. */
  predicate DistinctIds(q: seq<Process>) {
    forall i, j :: 0 <= i < j < |q| ==> q[i].id != q[j].id
  }

  /** Position of the first occurrence of `x`, scanning from the head. */
  function IndexOf(q: seq<Process>, x: Process): (r: Option<nat>)
    ensures r.None? <==> x !in q
    ensures r.Some? ==> r.value < |q| && q[r.value] == x && x !in q[..r.value]
  {
    if q == [] then None
    else if q[0] == x then Some(0)
    else match IndexOf(q[1..], x)
      case None => None
      case Some(i) =>
        assert q[..i + 1] == [q[0]] + q[1..][..i];
        Some(i + 1)
  }

  /** `Queue.remove(Object)`: drops the first occurrence of `x`, if any. */
  function RemoveFirst(q: seq<Process>, x: Process): (r: seq<Process>)
    ensures x in q ==> |r| == |q| - 1
    ensures x !in q ==> r == q
  {
    if q == [] then []
    else if q[0] == x then q[1..]
    else [q[0]] + RemoveFirst(q[1..], x)
  }

  /** Removal cuts the queue at the first occurrence of `x` and leaves it
      whole when `x` is absent. */
  lemma {:induction false} RemoveFirstAt(q: seq<Process>, x: Process)
    ensures match IndexOf(q, x)
      case None => RemoveFirst(q, x) == q
      case Some(i) => RemoveFirst(q, x) == q[..i] + q[i + 1..]
  {
    if q != [] && q[0] != x {
      RemoveFirstAt(q[1..], x);
      match IndexOf(q[1..], x)
      case None =>
      case Some(i) =>
        assert q[..i + 1] == [q[0]] + q[1..][..i];
        assert q[i + 2..] == q[1..][i + 1..];
    }
  }

  /** `stream().filter(p -> p.getPriority() == priority)`, keeping queue order. */
  function WithPriority(q: seq<Process>, priority: Priority): (r: seq<Process>)
    ensures |r| <= |q|
  {
    if q == [] then []
    else if q[0].priority == priority then [q[0]] + WithPriority(q[1..], priority)
    else WithPriority(q[1..], priority)
  }

  /** The processes whose priority differs from `priority`, in queue order. */
  function WithoutPriority(q: seq<Process>, priority: Priority): (r: seq<Process>)
    ensures |r| + |WithPriority(q, priority)| == |q|
  {
    if q == [] then []
    else if q[0].priority != priority then [q[0]] + WithoutPriority(q[1..], priority)
    else WithoutPriority(q[1..], priority)
  }

  /** The processes of `q` that do not occur in `drop`, in queue order. */
  function Without(q: seq<Process>, drop: seq<Process>): (r: seq<Process>)
    ensures |r| <= |q|
  {
    if q == [] then []
    else if q[0] !in drop then [q[0]] + Without(q[1..], drop)
    else Without(q[1..], drop)
  }

  /** The filter keeps exactly the processes of `priority`. */
  lemma {:induction false} WithPriorityMembers(q: seq<Process>, priority: Priority)
    ensures forall x :: x in WithPriority(q, priority) <==> x in q && x.priority == priority
  {
    if q != [] {
      WithPriorityMembers(q[1..], priority);
    }
  }

  lemma {:induction false} WithPriorityMember(q: seq<Process>, priority: Priority, x: Process)
    requires x in WithPriority(q, priority)
    ensures x in q && x.priority == priority
  {
    if q[0] != x || q[0].priority != priority {
      WithPriorityMember(q[1..], priority, x);
    }
  }

  lemma {:induction false} WithoutKeeps(q: seq<Process>, drop: seq<Process>, x: Process)
    requires x in q && x !in drop
    ensures x in Without(q, drop)
  {
    if q[0] != x {
      WithoutKeeps(q[1..], drop, x);
    }
  }

  /** The complementary filter keeps exactly the processes of other priorities. */
  lemma {:induction false} WithoutPriorityMembers(q: seq<Process>, priority: Priority)
    ensures forall x :: x in WithoutPriority(q, priority) <==> x in q && x.priority != priority
  {
    if q != [] {
      WithoutPriorityMembers(q[1..], priority);
    }
  }

  /** Filtering out `drop` keeps exactly the processes not in `drop`. */
  lemma {:induction false} WithoutMembers(q: seq<Process>, drop: seq<Process>)
    ensures forall x :: x in Without(q, drop) <==> x in q && x !in drop
  {
    if q != [] {
      WithoutMembers(q[1..], drop);
    }
  }

  // ---------------------------------------------------------------------
  // Removal keeps the survivors' order and their distinct ids.
  // ---------------------------------------------------------------------

  /** Removing the head of a queue is dropping its first element. */
  lemma RemoveFirstHead(q: seq<Process>)
    requires q != []
    ensures RemoveFirst(q, q[0]) == q[1..]
  {
  }

  /** Every survivor of a removal was already in the queue, and
      every element other than `x` survives. */
  lemma {:induction false} RemoveFirstMembers(q: seq<Process>, x: Process)
    ensures forall y :: y in RemoveFirst(q, x) ==> y in q
    ensures forall y :: y in q && y != x ==> y in RemoveFirst(q, x)
  {
    if q != [] && q[0] != x {
      RemoveFirstMembers(q[1..], x);
    }
  }

  lemma {:induction false} DistinctIdsTail(q: seq<Process>)
    requires DistinctIds(q) && q != []
    ensures DistinctIds(q[1..])
    ensures forall y :: y in q[1..] ==> y.id != q[0].id
  {
    forall y | y in q[1..] ensures y.id != q[0].id {
      var k :| 0 <= k < |q[1..]| && q[1..][k] == y;
      assert q[k + 1] == y;
    }
  }

  lemma {:induction false} DistinctIdsCons(x: Process, q: seq<Process>)
    requires DistinctIds(q)
    requires forall y :: y in q ==> y.id != x.id
    ensures DistinctIds([x] + q)
  {
    var s := [x] + q;
    forall i, j | 0 <= i < j < |s| ensures s[i].id != s[j].id {
      if i == 0 {
        assert s[j] == q[j - 1];
        assert s[j] in q;
      } else {
        assert s[i] == q[i - 1] && s[j] == q[j - 1];
      }
    }
  }

  /** Appending a process whose id is new keeps the ids distinct. */
  lemma DistinctIdsSnoc(q: seq<Process>, x: Process)
    requires DistinctIds(q)
    requires forall y :: y in q ==> y.id != x.id
    ensures DistinctIds(q + [x])
  {
    var s := q + [x];
    forall i, j | 0 <= i < j < |s| ensures s[i].id != s[j].id {
      assert s[i] == q[i];
      if j < |q| {
        assert s[j] == q[j];
      } else {
        assert s[i] in q;
      }
    }
  }

  lemma {:induction false} RemoveFirstKeepsDistinctIds(q: seq<Process>, x: Process)
    requires DistinctIds(q)
    ensures DistinctIds(RemoveFirst(q, x))
  {
    if q != [] {
      DistinctIdsTail(q);
      if q[0] != x {
        RemoveFirstKeepsDistinctIds(q[1..], x);
        RemoveFirstMembers(q[1..], x);
        DistinctIdsCons(q[0], RemoveFirst(q[1..], x));
      }
    }
  }

  lemma {:induction false} WithPriorityKeepsDistinctIds(q: seq<Process>, priority: Priority)
    requires DistinctIds(q)
    ensures DistinctIds(WithPriority(q, priority))
  {
    if q != [] {
      DistinctIdsTail(q);
      WithPriorityKeepsDistinctIds(q[1..], priority);
      WithPriorityMembers(q[1..], priority);
      if q[0].priority == priority {
        DistinctIdsCons(q[0], WithPriority(q[1..], priority));
      }
    }
  }

  /** In a queue with distinct ids no process occurs before its own position. */
  lemma DistinctIdsNotEarlier(q: seq<Process>, i: nat)
    requires DistinctIds(q) && i < |q|
    ensures q[i] !in q[..i]
  {
  }

  lemma {:induction false} WithoutUnchangedByAbsent(q: seq<Process>, drop: seq<Process>, x: Process)
    requires x !in q
    ensures Without(q, drop + [x]) == Without(q, drop)
  {
    if q != [] {
      assert q[0] in drop + [x] <==> q[0] in drop;
      WithoutUnchangedByAbsent(q[1..], drop, x);
    }
  }

  /** Deleting one more snapshot element `x` from what is left after deleting
      the elements of `drop` leaves what deleting `drop + [x]` leaves. */
  lemma {:induction false} RemoveFirstOfWithout(q: seq<Process>, drop: seq<Process>, x: Process)
    requires DistinctIds(q)
    requires x !in drop
    ensures RemoveFirst(Without(q, drop), x) == Without(q, drop + [x])
  {
    if q != [] {
      DistinctIdsTail(q);
      if q[0] == x {
        assert x !in q[1..];
        WithoutUnchangedByAbsent(q[1..], drop, x);
      } else {
        assert q[0] in drop + [x] <==> q[0] in drop;
        RemoveFirstOfWithout(q[1..], drop, x);
      }
    }
  }

  /** Deleting every process of a priority, one by one, leaves the filter. */
  lemma {:induction false} WithoutMatching(q: seq<Process>, drop: seq<Process>, priority: Priority)
    requires forall x :: x in q ==> (x in drop <==> x.priority == priority)
    ensures Without(q, drop) == WithoutPriority(q, priority)
  {
    if q != [] {
      assert q[0] in q;
      WithoutMatching(q[1..], drop, priority);
    }
  }

  /** Filtering out nothing keeps the whole queue. */
  lemma {:induction false} WithoutEmpty(q: seq<Process>)
    ensures Without(q, []) == q
  {
    if q != [] {
      WithoutEmpty(q[1..]);
    }
  }
}
