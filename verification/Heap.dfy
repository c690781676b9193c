/**
 Heap order of deadlines and the sifts of Go's container/heap, which the deadline queue is built on
 (pkg/fsm/queue.go), on plain sequences of deadlines.
 */
module Heap {

  type Time = int

  ghost function Entries<T>(s: seq<T>): set<T> {
    set x | x in s
  }

  ghost predicate NoDup<T>(s: seq<T>) {
    forall i, j :: 0 <= i < j < |s| ==> s[i] != s[j]
  }

  function Swapped<T>(s: seq<T>, i: nat, j: nat): (r: seq<T>)
    requires i < |s| && j < |s|
    ensures |r| == |s|
  {
    s[i := s[j]][j := s[i]]
  }

  // ---------- Heap order of a sequence of deadlines ----------

  /** The entry at slot c does not expire before the one above it. */
  predicate Edge(d: seq<Time>, c: int)
    requires 0 < c < |d|
  {
    d[(c - 1) / 2] <= d[c]
  }

  predicate Ordered(d: seq<Time>) {
    forall c :: 0 < c < |d| ==> Edge(d, c)
  }

  /** In order but for the edges that touch slot k: what changing the deadline at slot k leaves of the order. */
  predicate OrderedAround(d: seq<Time>, k: int) {
    && (forall c :: 0 < c < |d| && c != k && (c - 1) / 2 != k ==> Edge(d, c))
    && (forall c :: 0 < c < |d| && (c - 1) / 2 == k && k > 0 ==> d[(k - 1) / 2] <= d[c])
  }

  /** The edges from slot k downwards are in order. */
  predicate Below(d: seq<Time>, k: int) {
    forall c :: 0 < c < |d| && (c - 1) / 2 == k ==> Edge(d, c)
  }

  /** All edges but the one above slot k are in order. */
  predicate OrderedButAbove(d: seq<Time>, k: int) {
    OrderedAround(d, k) && Below(d, k)
  }

  /** All edges but those below slot k are in order. */
  predicate OrderedButBelow(d: seq<Time>, k: int) {
    OrderedAround(d, k) && (0 < k < |d| ==> Edge(d, k))
  }

  lemma UpStep(d: seq<Time>, j: nat)
    requires 0 < j < |d| && OrderedButAbove(d, j) && d[j] < d[(j - 1) / 2]
    ensures OrderedButAbove(Swapped(d, (j - 1) / 2, j), (j - 1) / 2)
  {
    var i := (j - 1) / 2;
    var e := Swapped(d, i, j);
    forall c | 0 < c < |e| && c != i
      ensures Edge(e, c)
    {
      if c != j && (c - 1) / 2 != j {
        assert (c - 1) / 2 != i ==> Edge(d, c);
        assert (c - 1) / 2 == i ==> Edge(d, c);
      }
    }
    forall c | 0 < c < |e| && (c - 1) / 2 == i && i > 0
      ensures e[(i - 1) / 2] <= e[c]
    {
      assert Edge(d, i);
      assert c != j ==> Edge(d, c);
    }
  }

  lemma DownStep(d: seq<Time>, i: nat, j: nat)
    requires i < |d| && 0 < j < |d| && (j - 1) / 2 == i
    requires OrderedAround(d, i) && d[j] < d[i]
    requires forall c :: 0 < c < |d| && (c - 1) / 2 == i ==> d[j] <= d[c]
    ensures OrderedButBelow(Swapped(d, i, j), j)
  {
    var e := Swapped(d, i, j);
    forall c | 0 < c < |e| && (c - 1) / 2 != j
      ensures Edge(e, c)
    {
      if c != i && (c - 1) / 2 != i {
        assert Edge(d, c);
      }
    }
    forall c | 0 < c < |e| && (c - 1) / 2 == j
      ensures e[i] <= e[c]
    {
      assert Edge(d, c);
    }
  }

  lemma DownDone(d: seq<Time>, i: nat)
    requires i < |d| && OrderedButBelow(d, i) && Below(d, i)
    ensures Ordered(d)
  {
    forall c | 0 < c < |d|
      ensures Edge(d, c)
    {
    }
  }

  // ---------- The sifts of container/heap, on deadlines ----------

  function SiftUp(d: seq<Time>, j: nat): (e: seq<Time>)
    requires j < |d|
    ensures |e| == |d|
    decreases j
  {
    if j == 0 || d[j] >= d[(j - 1) / 2] then d
    else SiftUp(Swapped(d, (j - 1) / 2, j), (j - 1) / 2)
  }

  function EarlierChild(d: seq<Time>, i: nat): (j: nat)
    requires 2 * i + 1 < |d|
    ensures j < |d| && (j == 2 * i + 1 || j == 2 * i + 2)
  {
    if 2 * i + 2 < |d| && d[2 * i + 2] < d[2 * i + 1] then 2 * i + 2 else 2 * i + 1
  }

  function SiftDown(d: seq<Time>, i: nat): (e: seq<Time>)
    ensures |e| == |d|
    decreases |d| - i
  {
    if 2 * i + 1 >= |d| then d
    else
      var j := EarlierChild(d, i);
      if d[j] >= d[i] then d else SiftDown(Swapped(d, i, j), j)
  }

  lemma {:induction false} SiftUpOrders(d: seq<Time>, j: nat)
    requires j < |d| && OrderedButAbove(d, j)
    ensures Ordered(SiftUp(d, j))
    decreases j
  {
    if j > 0 && d[j] < d[(j - 1) / 2] {
      UpStep(d, j);
      SiftUpOrders(Swapped(d, (j - 1) / 2, j), (j - 1) / 2);
    }
  }

  lemma {:induction false} SiftDownOrders(d: seq<Time>, i: nat)
    requires i < |d| && OrderedAround(d, i)
    requires i == 0 || Edge(d, i) || !Below(d, i)
    ensures Ordered(SiftDown(d, i))
    decreases |d| - i
  {
    if 2 * i + 1 < |d| && d[EarlierChild(d, i)] < d[i] {
      var j := EarlierChild(d, i);
      DownStep(d, i, j);
      SiftDownOrders(Swapped(d, i, j), j);
    } else {
      assert Below(d, i);
      DownDone(d, i);
    }
  }

  /** container/heap Fix: down, and up only if down moved nothing. */
  function FixAt(d: seq<Time>, k: nat): (e: seq<Time>)
    requires k < |d|
    ensures |e| == |d|
  {
    if 2 * k + 1 < |d| && d[EarlierChild(d, k)] < d[k] then SiftDown(d, k) else SiftUp(d, k)
  }

  lemma FixOrders(d: seq<Time>, k: nat)
    requires k < |d| && OrderedAround(d, k)
    ensures Ordered(FixAt(d, k))
  {
    if 2 * k + 1 < |d| && d[EarlierChild(d, k)] < d[k] {
      assert !Edge(d, EarlierChild(d, k));
      SiftDownOrders(d, k);
    } else {
      SiftUpOrders(d, k);
    }
  }

  lemma AppendedIsOrderedButAbove(d: seq<Time>, last: Time)
    requires Ordered(d)
    ensures OrderedButAbove(d + [last], |d|)
  {
    forall c | 0 < c < |d|
      ensures Edge(d + [last], c)
    {
      assert Edge(d, c);
    }
  }

  lemma OrderedImpliesAround(d: seq<Time>, k: nat)
    requires k < |d| && Ordered(d)
    ensures OrderedAround(d, k)
  {
    forall c | 0 < c < |d| && (c - 1) / 2 == k && k > 0
      ensures d[(k - 1) / 2] <= d[c]
    {
      assert Edge(d, k) && Edge(d, c);
    }
  }

  /** Moving the last entry into slot k leaves the shorter sequence in order around k. */
  lemma ReplacedByLast(d: seq<Time>, k: nat)
    requires k < |d| - 1 && OrderedAround(d, k)
    ensures OrderedAround(Swapped(d, k, |d| - 1)[..|d| - 1], k)
  {
    var e := Swapped(d, k, |d| - 1)[..|d| - 1];
    forall c | 0 < c < |e| && c != k && (c - 1) / 2 != k
      ensures Edge(e, c)
    {
      assert Edge(d, c);
    }
  }

  lemma LastDropped(d: seq<Time>)
    requires d != [] && OrderedAround(d, |d| - 1)
    ensures Ordered(d[..|d| - 1])
  {
    var e := d[..|d| - 1];
    forall c | 0 < c < |e|
      ensures Edge(e, c)
    {
      assert Edge(d, c);
    }
  }

  /** Changing one deadline disturbs only the edges at its slot. */
  lemma ChangedSlot(d: seq<Time>, k: nat, t: Time)
    requires k < |d| && Ordered(d)
    ensures OrderedAround(d[k := t], k)
  {
    OrderedImpliesAround(d, k);
    var e := d[k := t];
    forall c | 0 < c < |e| && c != k && (c - 1) / 2 != k
      ensures Edge(e, c)
    {
      assert Edge(d, c);
    }
  }

  /** With a new deadline at the root and no sift, order survives exactly if no entry below is earlier. */
  lemma ChangedRoot(d: seq<Time>, t: Time)
    requires d != [] && Ordered(d)
    ensures Ordered(d[0 := t]) <==> Below(d[0 := t], 0)
  {
    ChangedSlot(d, 0, t);
    if Below(d[0 := t], 0) {
      DownDone(d[0 := t], 0);
    }
  }

  /** container/heap Remove: the last entry takes slot k and is sifted from there. */
  function Without(d: seq<Time>, k: nat): (e: seq<Time>)
    requires k < |d|
    ensures |e| == |d| - 1
  {
    var n := |d| - 1;
    if k == n then d[..n] else FixAt(Swapped(d, k, n)[..n], k)
  }

  lemma WithoutOrders(d: seq<Time>, k: nat)
    requires k < |d| && OrderedAround(d, k)
    ensures Ordered(Without(d, k))
  {
    if k == |d| - 1 {
      LastDropped(d);
    } else {
      ReplacedByLast(d, k);
      FixOrders(Swapped(d, k, |d| - 1)[..|d| - 1], k);
    }
  }

  /** container/heap Pop: the last entry takes the root and is sifted down. */
  function WithoutRoot(d: seq<Time>): (e: seq<Time>)
    requires d != []
    ensures |e| == |d| - 1
  {
    var n := |d| - 1;
    if n == 0 then [] else SiftDown(Swapped(d, 0, n)[..n], 0)
  }

  lemma WithoutRootOrders(d: seq<Time>)
    requires d != [] && Ordered(d)
    ensures Ordered(WithoutRoot(d))
  {
    if |d| > 1 {
      OrderedImpliesAround(d, 0);
      ReplacedByLast(d, 0);
      SiftDownOrders(Swapped(d, 0, |d| - 1)[..|d| - 1], 0);
    }
  }

  /** In heap order nothing expires before the root. */
  lemma {:induction false} RootIsMin(d: seq<Time>, n: int)
    requires 0 <= n <= |d| && Ordered(d)
    ensures forall c :: 0 <= c < n ==> d[0] <= d[c]
  {
    if n > 1 {
      RootIsMin(d, n - 1);
      assert Edge(d, n - 1);
    }
  }
}
