/** The scaler: which instances a converge removes, how many operations it has in flight, and what overlapping
    converges leave (pkg/controller/group/scaler.go). */
module Scaler {
  import opened Wrappers
  import opened GroupOrder
  import opened Sets

  // ---------- The choice of what to remove ----------

  function Above(ids: set<string>, x: string): set<string> {
    set y | y in ids && Before(x, y)
  }

  /** Those with at least `size` greater IDs beside them. */
  function Surplus(ids: set<string>, size: nat): set<string> {
    set x | x in ids && |Above(ids, x)| >= size
  }

  /** In a sorted listing the greater IDs are those that come later. */
  lemma AboveIsLater(sorted: seq<Description>, i: nat)
    requires InOrder(sorted, None) && Distinct(sorted) && i < |sorted|
    ensures |Above(Ids(sorted), sorted[i].id)| == |sorted| - 1 - i
  {
    forall k | 0 <= k < |sorted|
      ensures Before(sorted[i].id, sorted[k].id) <==> i < k
    {
      BeforeIsTotal(sorted[i].id, sorted[k].id);
      assert i < k ==> !Less(sorted[k], sorted[i], None);
      assert k < i ==> !Less(sorted[i], sorted[k], None);
    }
    var later := sorted[i + 1..];
    assert Above(Ids(sorted), sorted[i].id) == Ids(later) by {
      forall y | y in Ids(later) ensures y in Above(Ids(sorted), sorted[i].id) {
        var k :| 0 <= k < |later| && later[k].id == y;
        assert sorted[i + 1 + k] == later[k];
      }
      forall y | y in Above(Ids(sorted), sorted[i].id) ensures y in Ids(later) {
        var k :| 0 <= k < |sorted| && sorted[k].id == y;
        assert later[k - i - 1] == sorted[k];
      }
    }
    DistinctIds(later);
  }

  /** The first ones of a sorted listing are its surplus, whatever the order it was listed in. */
  lemma FirstAreSurplus(sorted: seq<Description>, size: nat)
    requires InOrder(sorted, None) && Distinct(sorted) && size <= |sorted|
    ensures Ids(sorted[..|sorted| - size]) == Surplus(Ids(sorted), size)
  {
    forall i | 0 <= i < |sorted|
      ensures sorted[i].id in Surplus(Ids(sorted), size) <==> i < |sorted| - size
    {
      AboveIsLater(sorted, i);
    }
    var first := sorted[..|sorted| - size];
    forall x | x in Surplus(Ids(sorted), size) ensures x in Ids(first) {
      var i :| 0 <= i < |sorted| && sorted[i].id == x;
      assert first[i] == sorted[i];
    }
  }

  lemma {:induction false} Least(ids: set<string>) returns (x: string)
    requires ids != {}
    ensures x in ids && forall y | y in ids - {x} :: Before(x, y)
    decreases |ids|
  {
    x :| x in ids;
    if ids != {x} {
      var z := Least(ids - {x});
      BeforeIsTotal(x, z);
      var rest := ids - {x};
      if Before(x, z) {
        forall y | y in rest ensures Before(x, y) {
          if y != z {
            assert y in rest - {z};
            BeforeIsTransitive(x, z, y);
          }
        }
      } else {
        forall y | y in ids - {z} ensures Before(z, y) {
          if y != x {
            assert y in rest - {z};
          }
        }
        x := z;
      }
    }
  }

  /** Removing the surplus leaves `size`, or all there are. */
  lemma {:induction false} SurplusLeavesSize(ids: set<string>, size: nat)
    ensures |ids - Surplus(ids, size)| == if |ids| <= size then |ids| else size
    decreases |ids|
  {
    if |ids| <= size {
      forall x | x in ids ensures x !in Surplus(ids, size) {
        BeforeIsTotal(x, x);
        Fewer(Above(ids, x), ids - {x});
      }
      assert ids - Surplus(ids, size) == ids;
    } else {
      var x := Least(ids);
      var rest := ids - {x};
      SurplusLeavesSize(rest, size);
      BeforeIsTotal(x, x);
      assert Above(ids, x) == rest;
      forall y | y in rest ensures Above(ids, y) == Above(rest, y) {
        BeforeIsTotal(x, y);
      }
      assert ids - Surplus(ids, size) == rest - Surplus(rest, size);
    }
  }

  /** What is kept is above what is not. */
  lemma KeptIsAbove(ids: set<string>, size: nat, x: string, y: string)
    requires x in Surplus(ids, size) && y in ids - Surplus(ids, size)
    ensures Before(x, y)
  {
    BeforeIsTotal(x, y);
    if Before(y, x) {
      forall z | z in Above(ids, x) ensures z in Above(ids, y) {
        BeforeIsTransitive(y, x, z);
      }
      Fewer(Above(ids, x), Above(ids, y));
    }
  }

  /** When part of a chosen set is gone already, converging again chooses exactly the rest of it. */
  lemma ConvergingAgainChoosesTheRest(ids: set<string>, gone: set<string>, size: nat)
    requires gone <= Surplus(ids, size)
    ensures Surplus(ids - gone, size) == Surplus(ids, size) - gone
  {
    var left := ids - gone;
    forall x | x in left
      ensures x in Surplus(left, size) <==> x in Surplus(ids, size)
    {
      Fewer(Above(left, x), Above(ids, x));
      if x in Surplus(ids, size) {
        var kept := ids - Surplus(ids, size);
        forall y | y in kept ensures y in Above(left, x) {
          KeptIsAbove(ids, size, x, y);
        }
        Fewer(kept, Above(left, x));
        SurplusLeavesSize(ids, size);
        BeforeIsTotal(x, x);
        Fewer(Above(ids, x), ids - {x});
      }
    }
  }

  // ---------- Overlapping converges ----------

  /** The instances of a group, and the IDs that some converge has chosen to destroy at some time. */
  datatype Group = Group(live: set<string>, chosen: set<string>)

  /** Any converge lists and chooses; one of its destroys takes effect (also long after another one's);
      one of its creates takes effect. */
  datatype Step = Converge | Destroy(id: string) | Create(id: string)

  /** New instances have new IDs. */
  predicate Can(g: Group, step: Step) {
    match step
    case Converge => true
    case Destroy(id) => id in g.chosen
    case Create(id) => id !in g.chosen
  }

  function Next(g: Group, step: Step, size: nat): Group
    requires Can(g, step)
  {
    match step
    case Converge => g.(chosen := g.chosen + if |g.live| > size then Surplus(g.live, size) else {})
    case Destroy(id) => g.(live := g.live - {id})
    case Create(id) => g.(live := g.live + {id})
  }

  predicate IsRun(run: seq<Group>, steps: seq<Step>, size: nat) {
    && |run| == |steps| + 1 && run[0].chosen == {}
    && forall i :: 0 <= i < |steps| ==> Can(run[i], steps[i]) && run[i + 1] == Next(run[i], steps[i], size)
  }

  /** What is chosen and still there is surplus now. */
  predicate ChosenIsSurplus(g: Group, size: nat) {
    g.live * g.chosen <= Surplus(g.live, size)
  }

  lemma DestroyKeepsSize(live: set<string>, id: string, size: nat)
    requires id in Surplus(live, size)
    ensures Surplus(live - {id}, size) == Surplus(live, size) - {id}
    ensures |live - {id}| >= size
  {
    ConvergingAgainChoosesTheRest(live, {id}, size);
    BeforeIsTotal(id, id);
    Fewer(Above(live, id), live - {id});
  }

  lemma CreateKeepsSurplus(live: set<string>, id: string, size: nat)
    ensures Surplus(live, size) <= Surplus(live + {id}, size)
    ensures |live| <= |live + {id}|
  {
    forall x | x in live ensures |Above(live, x)| <= |Above(live + {id}, x)| {
      Fewer(Above(live, x), Above(live + {id}, x));
    }
    Fewer(live, live + {id});
  }

  lemma StepKeepsSize(g: Group, step: Step, size: nat)
    requires Can(g, step) && ChosenIsSurplus(g, size)
    ensures ChosenIsSurplus(Next(g, step, size), size)
    ensures |Next(g, step, size).live| >= if |g.live| <= size then |g.live| else size
  {
    hide Surplus;
    match step {
      case Converge =>
      case Destroy(id) =>
        if id in g.live {
          DestroyKeepsSize(g.live, id, size);
        } else {
          assert g.live - {id} == g.live;
        }
      case Create(id) =>
        CreateKeepsSurplus(g.live, id, size);
    }
  }

  /** Any number of overlapping converges with the same target never takes the group below its size. */
  lemma {:induction false} NeverBelowSize(run: seq<Group>, steps: seq<Step>, size: nat)
    requires IsRun(run, steps, size)
    ensures ChosenIsSurplus(run[|steps|], size)
    ensures |run[|steps|].live| >= if |run[0].live| <= size then |run[0].live| else size
    decreases |steps|
  {
    if steps != [] {
      var n := |steps| - 1;
      assert IsRun(run[..n + 1], steps[..n], size);
      NeverBelowSize(run[..n + 1], steps[..n], size);
      StepKeepsSize(run[n], steps[n], size);
    }
  }

  // ---------- One converge ----------

  datatype Op = CreateOne | DestroyOne(inst: Description)

  /** The n-th operation is launched; the n-th operation ends. */
  datatype Event = Launched(n: nat) | Finished(n: nat)

  function Launches(trace: seq<Event>): nat {
    if trace == [] then 0
    else Launches(trace[..|trace| - 1]) + if trace[|trace| - 1].Launched? then 1 else 0
  }

  function After(running: set<nat>, e: Event): set<nat> {
    match e
    case Launched(n) => running + {n}
    case Finished(n) => running - {n}
  }

  /** The operations in flight. */
  function Running(trace: seq<Event>): set<nat> {
    if trace == [] then {} else After(Running(trace[..|trace| - 1]), trace[|trace| - 1])
  }

  /** Operations are launched one after another, and end once, after they were launched. */
  predicate CanFollow(trace: seq<Event>, e: Event) {
    match e
    case Launched(n) => n == Launches(trace)
    case Finished(n) => n in Running(trace)
  }

  predicate WellFormed(trace: seq<Event>) {
    trace == [] || (WellFormed(trace[..|trace| - 1]) && CanFollow(trace[..|trace| - 1], trace[|trace| - 1]))
  }

  predicate InFlightAtMost(trace: seq<Event>, max: nat) {
    forall k :: 0 <= k <= |trace| ==> |Running(trace[..k])| <= max
  }

  lemma Extend(trace: seq<Event>, e: Event, max: nat)
    ensures Running(trace + [e]) == After(Running(trace), e)
    ensures Launches(trace + [e]) == Launches(trace) + if e.Launched? then 1 else 0
    ensures WellFormed(trace + [e]) <==> WellFormed(trace) && CanFollow(trace, e)
    ensures InFlightAtMost(trace, max) && |Running(trace + [e])| <= max ==> InFlightAtMost(trace + [e], max)
  {
    assert (trace + [e])[..|trace|] == trace;
    forall k | 0 <= k <= |trace| + 1
      ensures (trace + [e])[..k] == if k <= |trace| then trace[..k] else trace + [e]
    {}
  }

  lemma FinishOne(trace: seq<Event>, n: nat, max: nat)
    requires WellFormed(trace) && n in Running(trace)
    ensures WellFormed(trace + [Finished(n)]) && Launches(trace + [Finished(n)]) == Launches(trace)
    ensures Running(trace + [Finished(n)]) == Running(trace) - {n}
    ensures InFlightAtMost(trace, max) ==> InFlightAtMost(trace + [Finished(n)], max)
  {
    Extend(trace, Finished(n), max);
    Fewer(Running(trace + [Finished(n)]), Running(trace));
    assert trace[..|trace|] == trace;
  }

  /** Some operations end, in any order. */
  method Finish(which: set<nat>, trace: seq<Event>, ghost max: nat) returns (out: seq<Event>)
    requires WellFormed(trace) && which <= Running(trace) && (max > 0 ==> InFlightAtMost(trace, max))
    ensures WellFormed(out) && Running(out) == Running(trace) - which && Launches(out) == Launches(trace)
    ensures max > 0 ==> InFlightAtMost(out, max)
  {
    hide InFlightAtMost, WellFormed;
    out := trace;
    var left := which;
    while left != {}
      invariant left <= which <= Running(trace)
      invariant WellFormed(out) && Running(out) == Running(trace) - (which - left) && Launches(out) == Launches(trace)
      invariant max > 0 ==> InFlightAtMost(out, max)
      decreases |left|
    {
      var n := Pick(left);
      FinishOne(out, n, max);
      out := out + [Finished(n)];
      left := left - {n};
    }
  }

  /** Launches `ops` operations, waiting for all that are in flight whenever their number may have reached the limit.
      After the i-th launch any of those in flight may end: `ending(i)` says which. */
  method LaunchAll(ops: nat, max: nat, ending: nat -> set<nat>) returns (trace: seq<Event>)
    ensures WellFormed(trace) && Launches(trace) == ops && Running(trace) == {}
    ensures max > 0 ==> InFlightAtMost(trace, max)
  {
    trace := [];
    for i := 0 to ops
      invariant WellFormed(trace) && Launches(trace) == i
      invariant max > 0 ==> InFlightAtMost(trace, max) && Running(trace) <= LastBatch(i, max)
    {
      Extend(trace, Launched(i), max);
      if max > 0 {
        BatchIsSmall(i, max);
        Fewer(Running(trace + [Launched(i)]), LastBatch(i, max) + {i});
      }
      trace := trace + [Launched(i)];
      trace := Finish(Running(trace) * ending(i), trace, max);
      if max > 0 && (i + 1) % max == 0 {
        trace := Finish(Running(trace), trace, max);
      }
    }
    trace := Finish(Running(trace), trace, max);
  }

  function Range(lo: nat, n: nat): (r: set<nat>)
    ensures |r| == n && forall k <- r :: lo <= k < lo + n
  {
    if n == 0 then {} else Range(lo, n - 1) + {lo + n - 1}
  }

  /** Those launched since the last wait, when i have been launched. */
  function LastBatch(i: nat, max: nat): set<nat>
    requires max > 0
  {
    Range(i - i % max, i % max)
  }

  lemma BatchIsSmall(i: nat, max: nat)
    requires max > 0
    ensures |LastBatch(i, max) + {i}| <= max
    ensures (i + 1) % max != 0 ==> LastBatch(i + 1, max) == LastBatch(i, max) + {i}
  {
    NextRemainder(i, max);
  }

  lemma AtLeast(a: nat, b: nat)
    requires a > 0
    ensures a * b >= b
  {}

  lemma RemainderIs(x: nat, q: nat, max: nat, r: nat)
    requires x == q * max + r && r < max
    ensures x % max == r
  {
    var p := x / max;
    if p < q {
      AtLeast(q - p, max);
    } else if q < p {
      AtLeast(p - q, max);
    }
  }

  lemma NextRemainder(i: nat, max: nat)
    requires max > 0
    ensures (i + 1) % max == if i % max == max - 1 then 0 else i % max + 1
  {
    var q, r := i / max, i % max;
    if r == max - 1 {
      assert (q + 1) * max == q * max + max;
      RemainderIs(i + 1, q + 1, max, 0);
    } else {
      RemainderIs(i + 1, q, max, r + 1);
    }
  }

  lemma OpIds(ops: seq<Op>, chosen: seq<Description>)
    requires |ops| == |chosen| && forall i :: 0 <= i < |ops| ==> ops[i] == DestroyOne(chosen[i])
    ensures (set op | op in ops :: op.inst.id) == Ids(chosen)
  {
    forall x | x in Ids(chosen) ensures x in (set op | op in ops :: op.inst.id) {
      var i :| 0 <= i < |chosen| && chosen[i].id == x;
      assert ops[i] in ops;
    }
  }

  /** One converge on a listing; listing may fail. */
  method Converge(listing: Option<seq<Description>>, size: nat, max: nat, ending: nat -> set<nat>)
    returns (ops: seq<Op>, trace: seq<Event>)
    ensures listing.None? ==> ops == []
    ensures listing.Some? && |listing.value| <= size ==> ops == seq(size - |listing.value|, _ => CreateOne)
    ensures listing.Some? && |listing.value| > size ==>
              && |ops| == |listing.value| - size
              && (forall i :: 0 <= i < |ops| ==> ops[i].DestroyOne? && ops[i].inst in listing.value)
              && (Distinct(listing.value) ==> (set op | op in ops :: op.inst.id) == Surplus(Ids(listing.value), size))
    ensures WellFormed(trace) && Launches(trace) == |ops| && Running(trace) == {}
    ensures max > 0 ==> InFlightAtMost(trace, max)
  {
    ops := [];
    if listing.Some? {
      var descriptions := listing.value;
      if |descriptions| > size {
        var remove := |descriptions| - size;
        var sorted := SortByID(descriptions, None);
        SortedChoice(descriptions, sorted, size);
        ops := seq(remove, i requires 0 <= i < remove => DestroyOne(sorted[i]));
        OpIds(ops, sorted[..remove]);
      } else if |descriptions| < size {
        ops := seq(size - |descriptions|, _ => CreateOne);
      }
    }
    trace := LaunchAll(|ops|, max, ending);
  }

  lemma SortedChoice(list: seq<Description>, sorted: seq<Description>, size: nat)
    requires InOrder(sorted, None) && multiset(sorted) == multiset(list) && size < |list|
    ensures |sorted| == |list| && forall i :: 0 <= i < |sorted| ==> sorted[i] in list
    ensures Distinct(list) ==> Ids(sorted[..|list| - size]) == Surplus(Ids(list), size)
  {
    assert |multiset(sorted)| == |multiset(list)|;
    forall d ensures d in sorted <==> d in list {
      assert d in multiset(sorted) <==> d in multiset(list);
    }
    assert Ids(sorted) == Ids(list);
    if Distinct(list) {
      DistinctIds(list);
      DistinctIds(sorted);
      FirstAreSurplus(sorted, size);
    }
  }
}
