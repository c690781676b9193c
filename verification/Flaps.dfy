/** Flap detection: oscillation between two adjacent states (pkg/fsm/flap.go). */
module FlapHistory {

  type Index = int

  /** The history is what the transitions of one unbroken oscillation visit: every other entry repeats. */
  ghost predicate Alternating(history: seq<Index>) {
    |history| != 1 && forall i :: 0 <= i < |history| - 2 ==> history[i] == history[i + 2]
  }

  function Recorded(history: seq<Index>, a: Index, b: Index): seq<Index> {
    if |history| < 2 then [a, b]
    else if history[|history| - 2..] == [b, a] then history + [b]
    else []
  }

  /** The three states that make one flap, ending where the history ends. */
  function Pattern(history: seq<Index>, a: Index, b: Index): seq<Index> {
    if |history| > 0 && history[|history| - 1] == b then [b, a, b] else [a, b, a]
  }

  /** Flaps among the windows of three that end at `end`, `end - 2`, `end - 4`, ... */
  ghost function FlapsUpTo(history: seq<Index>, pattern: seq<Index>, end: int): nat
    requires end <= |history|
    decreases end
  {
    if end <= 2 then 0
    else (if history[end - 3..end] == pattern then 1 else 0) + FlapsUpTo(history, pattern, end - 2)
  }

  class Flaps {
    ghost const key: nat       // the instance this history belongs to
    var history: seq<Index>

    constructor (ghost key: nat)
      ensures history == [] && this.key == key
    {
      this.key := key;
      history := [];
    }

    method Reset()
      modifies this
      ensures history == []
    {
      history := [];
    }

    method Record(a: Index, b: Index)
      requires |history| != 1
      modifies this
      ensures history == Recorded(old(history), a, b)
      ensures old(Alternating(history)) ==> Alternating(history)
      ensures |history| != 1
    {
      if |history| == 0 {
        history := [a, b];
        return;
      }
      var last := history[|history| - 2..];
      if last == [b, a] {
        history := history + [b];
      } else {
        Reset();
      }
    }

    method Count(a: Index, b: Index) returns (count: nat)
      ensures count == FlapsUpTo(history, Pattern(history, a, b), |history|)
    {
      count := 0;
      if |history| < 2 {
        return;
      }
      var search := Pattern(history, a, b);
      var i := |history|;
      while i > 2
        invariant i <= |history|
        invariant count + FlapsUpTo(history, search, i) == FlapsUpTo(history, search, |history|)
      {
        if history[i - 3..i] == search {
          count := count + 1;
        }
        i := i - 2;
      }
    }
  }

  // ---------- Whole traces of recorded transitions ----------

  datatype Transition = Transition(from: Index, to: Index)

  ghost function HistoryOf(trace: seq<Transition>): seq<Index> {
    if trace == [] then []
    else var t := trace[|trace| - 1]; Recorded(HistoryOf(trace[..|trace| - 1]), t.from, t.to)
  }

  /** Number of transitions in the oscillation still running at the end of the trace. */
  ghost function RunLength(trace: seq<Transition>): nat {
    if trace == [] then 0
    else
      var n, t := |trace| - 1, trace[|trace| - 1];
      var before := RunLength(trace[..n]);
      if before == 0 then 1
      else if n > 0 && trace[n - 1] == Transition(t.to, t.from) then before + 1
      else 0
  }

  lemma {:induction false} HistoryIsTheRun(trace: seq<Transition>)
    ensures var h := HistoryOf(trace);
            && Alternating(h)
            && |h| == (if RunLength(trace) == 0 then 0 else RunLength(trace) + 1)
            && (h != [] ==> trace != [] && h[|h| - 2..] == [trace[|trace| - 1].from, trace[|trace| - 1].to])
  {
    if trace != [] {
      var n := |trace| - 1;
      var rest := trace[..n];
      HistoryIsTheRun(rest);
      var h := HistoryOf(rest);
      if h != [] {
        assert trace[n - 1] == rest[|rest| - 1];
        assert h[|h| - 2..] == [h[|h| - 2], h[|h| - 1]];
        assert [trace[n].to, trace[n].from][0] == trace[n].to;
      }
    }
  }

  /** Counting right after recording the same pair gives half the run, rounded down; 0 when the record broke it. */
  lemma {:induction false} CountIsHalfTheRun(trace: seq<Transition>, t: Transition)
    ensures var h := HistoryOf(trace + [t]);
            FlapsUpTo(h, Pattern(h, t.from, t.to), |h|) == RunLength(trace + [t]) / 2
  {
    var full := trace + [t];
    var h := HistoryOf(full);
    HistoryIsTheRun(full);
    if h != [] {
      assert h[|h| - 2..][1] == t.to && h[|h| - 2..][0] == t.from;
      EveryWindowIsAFlap(h, |h|);
    }
  }

  lemma {:induction false} EveryWindowIsAFlap(h: seq<Index>, end: nat)
    requires Alternating(h) && end <= |h| && (|h| - end) % 2 == 0
    requires end >= 2 ==> h[end - 2] == h[|h| - 2] && h[end - 1] == h[|h| - 1]
    ensures |h| >= 2 ==>
              FlapsUpTo(h, [h[|h| - 1], h[|h| - 2], h[|h| - 1]], end) == if end < 2 then 0 else (end - 1) / 2
  {
    if end > 2 {
      assert h[end - 3] == h[end - 1];
      assert h[end - 3..end] == [h[end - 3], h[end - 2], h[end - 1]];
      EveryWindowIsAFlap(h, end - 2);
    }
  }
}
