/**
 The priority queue of instances by deadline (pkg/fsm/queue.go) and the instances themselves
 (pkg/fsm/instance.go). The sifting loops are those of Go's container/heap over this queue's Less and Swap.
 */
module DeadlineQueue {
  import opened Wrappers
  import opened FlapHistory
  import opened Heap

  class Instance {
    ghost const born: nat      // the id given when the instance was added; deletion zeroes the field below
    ghost var entries: nat     // how many times update has entered a state
    var id: nat
    var state: Index
    var start: Time
    var deadline: Time
    var index: int             // slot in the deadline queue, -1 when not queued
    var visits: map<Index, nat>
    const flaps: Flaps

    constructor (id: nat, initial: Index)
      ensures this.born == id && this.id == id && state == initial && start == 0 && deadline == 0 && index == -1
      ensures visits == map[initial := 1] && entries == 0
      ensures fresh(flaps) && flaps.history == [] && flaps.key == id
    {
      this.born := id;
      this.id := id;
      this.state := initial;
      this.start := 0;
      this.deadline := 0;
      this.index := -1;
      this.visits := map[initial := 1];
      this.entries := 0;
      this.flaps := new Flaps(id);
    }

    /** State, start time, deadline and visit count change together. */
    method Update(next: Index, now: Time, ttl: int)
      modifies this`state, this`start, this`deadline, this`visits, this`entries
      ensures state == next && start == now && entries == old(entries) + 1
      ensures deadline == if ttl > 0 then now + ttl else 0
      ensures visits == old(visits)[next := (if next in old(visits) then old(visits)[next] else 0) + 1]
    {
      visits := visits[next := (if next in visits then visits[next] else 0) + 1];
      state := next;
      start := now;
      if ttl > 0 {
        deadline := now + ttl;
      } else {
        deadline := 0;
      }
      entries := entries + 1;
    }
  }

  // ---------- The queue ----------

  /** d lists the deadlines of the first entries. */
  ghost predicate Keyed(pq: seq<Instance>, d: seq<Time>)
    reads pq`deadline
  {
    |d| <= |pq| && forall i :: 0 <= i < |d| ==> pq[i].deadline == d[i]
  }

  ghost function Deadlines(pq: seq<Instance>): (d: seq<Time>)
    reads pq`deadline
    ensures |d| == |pq| && Keyed(pq, d)
  {
    if pq == [] then [] else Deadlines(pq[..|pq| - 1]) + [pq[|pq| - 1].deadline]
  }

  /** Same entries, moved only among the first n slots. */
  ghost predicate Moved(was: seq<Instance>, now: seq<Instance>, n: int)
    requires 0 <= n <= |was|
  {
    |now| == |was| && Entries(now) == Entries(was) && now[n..] == was[n..]
  }

  lemma SameEntries(a: seq<Instance>, b: seq<Instance>)
    requires Entries(a) == Entries(b)
    ensures forall x :: x in a <==> x in b
  {
    assert forall x :: x in a <==> x in Entries(a);
    assert forall x :: x in b <==> x in Entries(b);
  }

  lemma MovedBy(was: seq<Instance>, now: seq<Instance>, n: int, i: nat, j: nat)
    requires 0 <= n <= |was| && Moved(was, now, n) && i < n && j < n
    ensures now[i] in was && now[j] in was
    ensures Moved(was, Swapped(now, i, j), n)
  {
    var next := Swapped(now, i, j);
    assert now[i] in Entries(now) && now[j] in Entries(now);
    forall x | x in now
      ensures x in next
    {
      var k :| 0 <= k < |now| && now[k] == x;
      assert next[if k == i then j else if k == j then i else k] == x;
    }
    assert Entries(next) == Entries(now);
  }

  class Queue {
    var pq: seq<Instance>

    constructor ()
      ensures pq == []
    {
      pq := [];
    }

    /** Every entry knows its slot; in particular no instance is queued twice. */
    ghost predicate Indexed()
      reads this, pq`index
    {
      forall i :: 0 <= i < |pq| ==> pq[i].index == i
    }

    /** Among all these instances, exactly the queued ones have an index above -1, which is their slot. */
    ghost predicate Tracks(all: set<Instance>)
      reads this, pq`index, all`index
    {
      Indexed() && Entries(pq) <= all && forall o :: o in all ==> o.index >= -1 && (o.index > -1 <==> o in Entries(pq))
    }

    ghost predicate InOrder()
      reads this, pq`deadline
    {
      Ordered(Deadlines(pq))
    }

    method Swap(i: nat, j: nat)
      requires i < |pq| && j < |pq| && Indexed()
      modifies this, {pq[i], pq[j]}`index
      ensures pq == Swapped(old(pq), i, j) && Indexed()
    {
      pq := Swapped(pq, i, j);
      pq[i].index := i;
      pq[j].index := j;
    }

    /** container/heap up, among the first |d| slots. */
    method Up(k: nat, ghost d: seq<Time>)
      requires k < |d| && Keyed(pq, d) && Indexed()
      modifies this, Entries(pq)`index
      ensures Indexed() && Moved(old(pq), pq, |d|) && Keyed(pq, SiftUp(d, k))
    {
      var j := k;
      ghost var e := d;
      while j > 0
        invariant 0 <= j < |d| == |e| <= |pq| && Indexed() && Moved(old(pq), pq, |d|) && Keyed(pq, e)
        invariant SiftUp(e, j) == SiftUp(d, k)
      {
        var i := (j - 1) / 2;
        if pq[j].deadline >= pq[i].deadline {
          break;
        }
        MovedBy(old(pq), pq, |d|, i, j);
        Swap(i, j);
        e := Swapped(e, i, j);
        j := i;
      }
    }

    method ChildSlot(i: nat, n: nat, ghost e: seq<Time>) returns (j: nat)
      requires 2 * i + 1 < n == |e| && Keyed(pq, e)
      ensures j == EarlierChild(e, i)
    {
      j := 2 * i + 1;
      if j + 1 < n && pq[j + 1].deadline < pq[j].deadline {
        j := j + 1;
      }
    }

    /** container/heap down, among the first n slots. */
    method Down(k: nat, n: nat, ghost d: seq<Time>) returns (moved: bool)
      requires k < n == |d| && Keyed(pq, d) && Indexed()
      modifies this, Entries(pq)`index
      ensures Indexed() && Moved(old(pq), pq, n) && Keyed(pq, SiftDown(d, k))
      ensures if moved then 2 * k + 1 < n && d[EarlierChild(d, k)] < d[k]
              else pq == old(pq) && (2 * k + 1 < n ==> d[EarlierChild(d, k)] >= d[k])
    {
      var i := k;
      ghost var e := d;
      while 2 * i + 1 < n
        invariant k <= i < n == |e| <= |pq| && Indexed() && Moved(old(pq), pq, n) && Keyed(pq, e)
        invariant SiftDown(e, i) == SiftDown(d, k)
        invariant if i == k then e == d && pq == old(pq) else 2 * k + 1 < n && d[EarlierChild(d, k)] < d[k]
      {
        var j := ChildSlot(i, n, e);
        if pq[j].deadline >= pq[i].deadline {
          break;
        }
        MovedBy(old(pq), pq, n, i, j);
        Swap(i, j);
        e := Swapped(e, i, j);
        i := j;
      }
      moved := i > k;
    }

    method Enqueue(instance: Instance, ghost all: set<Instance>)
      requires Tracks(all) && instance in all && instance.index == -1
      modifies this, Entries(pq)`index, instance`index
      ensures Tracks(all) && |pq| == old(|pq|) + 1 && Entries(pq) == old(Entries(pq)) + {instance}
      ensures old(InOrder()) ==> InOrder()
    {
      ghost var d := Deadlines(pq);
      PushLast(instance);
      ghost var e := d + [instance.deadline];
      Up(|pq| - 1, e);
      if Ordered(d) {
        AppendedIsOrderedButAbove(d, instance.deadline);
        SiftUpOrders(e, |d|);
      }
      assert SiftUp(e, |d|) == Deadlines(pq);
    }

    /** The queue's own Push: a new last slot. */
    method PushLast(instance: Instance)
      requires Indexed() && instance !in pq
      modifies this, instance`index
      ensures pq == old(pq) + [instance] && Indexed() && Entries(pq) == old(Entries(pq)) + {instance}
    {
      instance.index := |pq|;
      pq := pq + [instance];
    }

    /** The queue's own Pop: cut off the last slot. */
    method PopLast() returns (instance: Instance)
      requires Indexed() && pq != []
      modifies this, {pq[|pq| - 1]}`index
      ensures instance == old(pq[|pq| - 1]) && instance.index == -1
      ensures pq == old(pq[..|pq| - 1]) && Indexed()
    {
      var n := |pq|;
      instance := pq[n - 1];
      instance.index := -1;
      pq := pq[..n - 1];
    }

    /** container/heap Pop: the root leaves. */
    method Dequeue(ghost all: set<Instance>) returns (instance: Instance)
      requires Tracks(all) && pq != []
      modifies this, Entries(pq)`index
      ensures instance == old(pq[0]) && instance.index == -1
      ensures Tracks(all) && |pq| == old(|pq|) - 1 && Entries(pq) == old(Entries(pq)) - {instance}
      ensures old(InOrder()) ==> InOrder()
    {
      hide Deadlines, Ordered;
      ghost var d := Deadlines(pq);
      if Ordered(d) {
        WithoutRootOrders(d);
      }
      RootToLast(d);
      instance := CutLast(old(pq), WithoutRoot(d));
    }

    method RootToLast(ghost d: seq<Time>)
      requires Indexed() && 0 < |pq| == |d| && Keyed(pq, d)
      modifies this, Entries(pq)`index
      ensures Indexed() && |pq| == old(|pq|) && Entries(pq) == old(Entries(pq)) && pq[|pq| - 1] == old(pq[0])
      ensures Keyed(pq, WithoutRoot(d))
    {
      var n := |pq| - 1;
      MovedBy(pq, pq, n + 1, 0, n);
      Swap(0, n);
      if n > 0 {
        var _ := Down(0, n, Swapped(d, 0, n)[..n]);
      }
    }

    /** The entry to remove has been moved to the last slot. */
    method CutLast(ghost was: seq<Instance>, ghost e: seq<Time>) returns (instance: Instance)
      requires Indexed() && pq != [] && Entries(pq) == Entries(was) && Keyed(pq, e) && |e| == |pq| - 1
      modifies this, {pq[|pq| - 1]}`index
      ensures instance == old(pq[|pq| - 1]) && instance.index == -1
      ensures Indexed() && pq == old(pq[..|pq| - 1]) && Entries(pq) == Entries(was) - {instance}
      ensures InOrder() <==> Ordered(e)
    {
      ghost var all := pq;
      instance := PopLast();
      assert all == pq + [instance];
      forall x | x in pq
        ensures x != instance
      {
        var k :| 0 <= k < |pq| && pq[k] == x;
      }
      assert forall x :: x in Entries(was) <==> x in all;
      assert e == Deadlines(pq);
    }
  
    method Fix(k: nat, n: nat, ghost d: seq<Time>)
      requires k < n == |d| && Keyed(pq, d) && Indexed()
      modifies this, Entries(pq)`index
      ensures Indexed() && Moved(old(pq), pq, n) && Keyed(pq, FixAt(d, k))
    {
      var moved := Down(k, n, d);
      if !moved {
        Up(k, d);
      }
    }

    /** Restores the order after a deadline changed, but only below the root. */
    method Update(instance: Instance, ghost all: set<Instance>)
      requires Tracks(all) && instance in all
      modifies this, Entries(pq)`index
      ensures Tracks(all) && |pq| == old(|pq|) && Entries(pq) == old(Entries(pq))
      ensures old(instance.index) <= 0 ==> pq == old(pq)
      ensures old(instance.index >= 0 && OrderedAround(Deadlines(pq), instance.index)) ==>
                (InOrder() <==> old(instance.index > 0 || Below(Deadlines(pq), 0)))
    {
      ghost var d := Deadlines(pq);
      if instance.index > 0 {
        var k := instance.index;
        if OrderedAround(d, k) {
          FixOrders(d, k);
        }
        Fix(k, |pq|, d);
        assert FixAt(d, k) == Deadlines(pq);
      } else if instance.index == 0 && OrderedAround(d, 0) && Below(d, 0) {
        DownDone(d, 0);
      }
    }

    /** Takes an instance out, but only below the root. */
    method Remove(instance: Instance, ghost all: set<Instance>)
      requires Tracks(all) && instance in all
      modifies this, Entries(pq)`index
      ensures Tracks(all)
      ensures old(instance.index) <= 0 ==> pq == old(pq) && instance.index == old(instance.index)
      ensures old(instance.index) > 0 ==>
        instance.index == -1 && |pq| == old(|pq|) - 1 && Entries(pq) == old(Entries(pq)) - {instance}
      ensures old(instance.index > 0 && OrderedAround(Deadlines(pq), instance.index)) ==> InOrder()
    {
      hide Deadlines, Ordered, OrderedAround;
      if instance.index > 0 {
        ghost var d, k := Deadlines(pq), instance.index;
        if OrderedAround(d, k) {
          WithoutOrders(d, k);
        }
        MoveToLast(instance.index, d);
        var _ := CutLast(old(pq), Without(d, k));
        instance.index := -1;
      }
    }

    /** The part of container/heap Remove before the last slot is cut off. */
    method MoveToLast(k: nat, ghost d: seq<Time>)
      requires Indexed() && k < |pq| == |d| && Keyed(pq, d)
      modifies this, Entries(pq)`index
      ensures Indexed() && |pq| == old(|pq|) && Entries(pq) == old(Entries(pq)) && pq[|pq| - 1] == old(pq[k])
      ensures Keyed(pq, Without(d, k))
    {
      var n := |pq| - 1;
      if k != n {
        MovedBy(pq, pq, n + 1, k, n);
        Swap(k, n);
        SameEntries(pq, old(pq));
        Fix(k, n, Swapped(d, k, n)[..n]);
      }
    }

    method Peek() returns (r: Option<Instance>)
      ensures r.None? <==> pq == []
      ensures r.Some? ==> r.value == pq[0]
      ensures r.Some? && InOrder() ==> forall x :: x in pq ==> r.value.deadline <= x.deadline
    {
      if |pq| == 0 {
        return None;
      }
      if InOrder() {
        RootIsMin(Deadlines(pq), |pq|);
      }
      return Some(pq[0]);
    }
  }
}
