/** The growable circular queue of events (pkg/fsm/fifo.go), proved against a plain sequence. */
module Fifo {
  import opened Wrappers

  /** The slot of the k-th element from the head of a circular buffer. */
  function Slot(head: nat, k: nat, length: nat): nat {
    if head + k < length then head + k else head + k - length
  }

  lemma WrapIs(i: nat, length: nat)
    requires i < length
    ensures (i + 1) % length == Slot(i, 1, length)
  {
  }

  class Fifo<T(0)> {
    var nodes: array<T>
    const size: nat
    var head: nat
    var tail: nat
    var count: nat

    ghost predicate Valid()
      reads this
    {
      && 0 < size <= nodes.Length
      && head < nodes.Length && count <= nodes.Length
      && tail == Slot(head, count, nodes.Length)
    }

    /** The elements pushed and not yet popped, oldest first. */
    ghost function Contents(): (s: seq<T>)
      reads this, nodes
      requires Valid()
      ensures |s| == count && forall k :: 0 <= k < count ==> s[k] == nodes[Slot(head, k, nodes.Length)]
    {
      seq(count, k requires 0 <= k < count && Valid() reads this, nodes => nodes[Slot(head, k, nodes.Length)])
    }

    constructor (size: nat)
      requires size > 0
      ensures Valid() && fresh(nodes) && Contents() == []
    {
      this.size := size;
      nodes := new T[size];
      head, tail, count := 0, 0, 0;
    }

    method Len() returns (n: nat)
      requires Valid()
      ensures n == |Contents()|
    {
      n := count;
    }

    method Push(n: T)
      requires Valid()
      modifies this, nodes
      ensures Valid() && Contents() == old(Contents()) + [n]
      ensures nodes == old(nodes) || fresh(nodes)
    {
      if head == tail && count > 0 {
        Grow();
      }
      ghost var before := Contents();
      nodes[tail] := n;
      assert forall k :: 0 <= k < count ==> nodes[Slot(head, k, nodes.Length)] == before[k];
      WrapIs(tail, nodes.Length);
      tail := (tail + 1) % nodes.Length;
      count := count + 1;
    }

    /** A full buffer is copied, unwrapped, to the front of a larger one. */
    method Grow()
      requires Valid() && head == tail && count > 0
      modifies this
      ensures Valid() && fresh(nodes) && Contents() == old(Contents()) && count < nodes.Length
    {
      var length := nodes.Length;
      var larger := new T[length + size];
      for i := 0 to length - head
        modifies larger
        invariant forall k :: 0 <= k < i ==> larger[k] == nodes[head + k]
      {
        larger[i] := nodes[head + i];
      }
      for i := 0 to head
        modifies larger
        invariant forall k :: 0 <= k < length - head ==> larger[k] == nodes[head + k]
        invariant forall k :: 0 <= k < i ==> larger[length - head + k] == nodes[k]
      {
        larger[length - head + i] := nodes[i];
      }
      forall k | 0 <= k < count
        ensures larger[k] == nodes[Slot(head, k, length)]
      {
        assert k >= length - head ==> larger[length - head + (k - (length - head))] == nodes[k - (length - head)];
      }
      head := 0;
      tail := length;
      nodes := larger;
    }

    method Pop() returns (r: Option<T>)
      requires Valid()
      modifies this
      ensures Valid() && nodes == old(nodes)
      ensures old(Contents()) == [] ==> r == None && Contents() == []
      ensures old(Contents()) != [] ==> r == Some(old(Contents()[0])) && Contents() == old(Contents())[1..]
    {
      if count == 0 {
        return None;
      }
      ghost var before := Contents();
      ghost var from := head;
      r := Some(nodes[head]);
      WrapIs(head, nodes.Length);
      head := (head + 1) % nodes.Length;
      count := count - 1;
      forall k | 0 <= k < count
        ensures nodes[Slot(head, k, nodes.Length)] == before[k + 1]
      {
      }
    }
  }

  // ---------- Whole runs ----------

  datatype Op<T> = PushOp(value: T) | PopOp

  /** The plain queue: what is left after the operations, and what each pop returned. */
  ghost function Plain<T>(s: seq<T>, ops: seq<Op<T>>): (seq<T>, seq<Option<T>>) {
    if ops == [] then (s, [])
    else
      var (t, out) := Plain(s, ops[..|ops| - 1]);
      match ops[|ops| - 1]
      case PushOp(v) => (t + [v], out)
      case PopOp => if t == [] then (t, out + [None]) else (t[1..], out + [Some(t[0])])
  }

  method RunOps<T(0)>(size: nat, ops: seq<Op<T>>) returns (q: Fifo<T>, popped: seq<Option<T>>)
    requires size > 0
    ensures q.Valid() && (q.Contents(), popped) == Plain([], ops)
  {
    q := new Fifo<T>(size);
    popped := [];
    for i := 0 to |ops|
      invariant fresh(q) && fresh(q.nodes) && q.Valid()
      invariant (q.Contents(), popped) == Plain([], ops[..i])
    {
      assert ops[..i + 1][..i] == ops[..i];
      match ops[i] {
        case PushOp(v) =>
          q.Push(v);
        case PopOp =>
          var r := q.Pop();
          popped := popped + [r];
      }
    }
    assert ops[..|ops|] == ops;
  }

  function Somes<T>(out: seq<Option<T>>): seq<T> {
    if out == [] then []
    else Somes(out[..|out| - 1]) + if out[|out| - 1].Some? then [out[|out| - 1].value] else []
  }

  function Pushed<T>(ops: seq<Op<T>>): seq<T> {
    if ops == [] then []
    else Pushed(ops[..|ops| - 1]) + if ops[|ops| - 1].PushOp? then [ops[|ops| - 1].value] else []
  }

  /** First in, first out: what was popped, then what is left, is what was pushed, in order. */
  lemma {:induction false} PoppedThenLeftIsPushed<T>(ops: seq<Op<T>>)
    ensures var (left, out) := Plain([], ops); Somes(out) + left == Pushed(ops)
  {
    if ops != [] {
      PoppedThenLeftIsPushed(ops[..|ops| - 1]);
      var (t, out) := Plain([], ops[..|ops| - 1]);
      match ops[|ops| - 1] {
        case PushOp(v) =>
          assert Somes(out) + (t + [v]) == (Somes(out) + t) + [v];
        case PopOp =>
          if t != [] {
            assert (out + [Some(t[0])])[..|out|] == out;
            assert Somes(out) + t == (Somes(out) + [t[0]]) + t[1..];
          } else {
            assert (out + [None])[..|out|] == out;
          }
      }
    }
  }
}
