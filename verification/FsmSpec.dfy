/** State machine specifications: validation by Define and the lookups used at run time (pkg/fsm/fsm.go). */
module FsmSpec {
  import opened Wrappers

  type Index = int
  type Signal = int
  type Tick = int

  /** An action is code of the client; only its presence matters here. None is a nil action. */
  type ActionRef = Option<nat>

  datatype Expiry = Expiry(ttl: Tick, raise: Signal)
  datatype Limit = Limit(value: int, raise: Signal)
  datatype Flap = Flap(first: Index, second: Index, count: int, raise: Signal)

  datatype State = State(
    index: Index,
    transitions: map<Signal, Index>,
    actions: map<Signal, ActionRef>,
    errors: map<Signal, Index>,
    ttl: Expiry,
    visit: Limit)

  datatype Spec = Spec(states: map<Index, State>, signals: set<Signal>, flaps: map<(Index, Index), Flap>)

  datatype Error =
    | DuplicateState(index: Index)
    | UnknownState(index: Index)
    | UnknownTransition(signal: Signal, state: Index)
    | UnknownSignal(signal: Signal)
    | NilAction(signal: Signal)
    | NoTransitions
    | UnknownFSM(id: nat)

  // ---------- What a sound specification is ----------

  function Indices(all: seq<State>): set<Index> {
    set st | st in all :: st.index
  }

  predicate Unique(all: seq<State>) {
    forall i, j :: 0 <= i < j < |all| ==> all[i].index != all[j].index
  }

  predicate TargetsKnown(known: set<Index>, st: State) {
    && (forall sig :: sig in st.transitions ==> st.transitions[sig] in known)
    && (forall sig :: sig in st.errors ==> st.errors[sig] in known)
  }

  predicate ActionsKnown(st: State) {
    forall sig :: sig in st.actions ==> sig in st.transitions && st.actions[sig].Some?
  }

  predicate LimitsKnown(st: State) {
    && (st.ttl.ttl > 0 ==> st.ttl.raise in st.transitions)
    && (st.visit.value > 0 ==> st.visit.raise in st.transitions)
  }

  predicate StateSound(known: set<Index>, st: State) {
    TargetsKnown(known, st) && ActionsKnown(st) && LimitsKnown(st)
  }

  /** The defect an error of Define reports is really there. */
  predicate Justified(e: Error, all: seq<State>) {
    match e
    case DuplicateState(_) => !Unique(all)
    case UnknownState(i) => i !in Indices(all) && exists st :: st in all && !TargetsKnown(Indices(all), st)
    case UnknownTransition(sig, i) =>
      exists st :: st in all && st.index == i && sig in st.actions && sig !in st.transitions
    case NilAction(sig) => exists st :: st in all && sig in st.actions && st.actions[sig].None?
    case UnknownSignal(sig) => exists st :: st in all && sig !in st.transitions && !LimitsKnown(st)
    case _ => false
  }

  /** What every accepted specification guarantees to the engine. */
  predicate Sound(spec: Spec) {
    forall i :: i in spec.states ==>
      && spec.states[i].index == i
      && StateSound(spec.states.Keys, spec.states[i])
      && spec.states[i].transitions.Keys + spec.states[i].errors.Keys <= spec.signals
  }

  // ---------- Define and compile ----------

  method Define(first: State, more: seq<State>) returns (r: Result<Spec, Error>)
    ensures r.Success? <==> Unique([first] + more) && forall st :: st in [first] + more ==>
              StateSound(Indices([first] + more), st)
    ensures r.Success? ==>
      && Sound(r.value)
      && r.value.flaps == map[]
      && r.value.states.Keys == Indices([first] + more)
      && (forall st :: st in [first] + more ==> r.value.states[st.index] == st)
      && (forall sig :: sig in r.value.signals ==>
            exists st :: st in [first] + more && sig in st.transitions.Keys + st.errors.Keys)
    ensures r.Failure? ==> Justified(r.error, [first] + more)
  {
    ghost var all := [first] + more;
    var states := map[first.index := first];
    var n := 0;
    while n < |more|
      invariant 0 <= n <= |more|
      invariant Unique(all[..n + 1])
      invariant states.Keys == Indices(all[..n + 1])
      invariant forall st :: st in all[..n + 1] ==> states[st.index] == st
    {
      assert all[..n + 2] == all[..n + 1] + [more[n]];
      if more[n].index in states {
        ghost var st :| st in all[..n + 1] && st.index == more[n].index;
        ghost var k :| 0 <= k < n + 1 && all[k] == st;
        assert all[k].index == all[n + 1].index;
        return Failure(DuplicateState(more[n].index));
      }
      states := states[more[n].index := more[n]];
      n := n + 1;
    }
    assert all[..n + 1] == all;

    var signals := Compile(states, all);
    match signals
    case Failure(e) =>
      assert Justified(e, all);
      r := Failure(e);
    case Success(known) =>
      r := Success(Spec(states, known, map[]));
  }

  method Compile(m: map<Index, State>, ghost all: seq<State>) returns (r: Result<set<Signal>, Error>)
    requires m.Keys == Indices(all) && forall st :: st in all ==> m[st.index] == st
    ensures r.Success? <==> forall st :: st in all ==> StateSound(m.Keys, st)
    ensures r.Success? ==>
      && (forall i :: i in m ==> m[i].transitions.Keys + m[i].errors.Keys <= r.value)
      && (forall sig :: sig in r.value ==> exists st :: st in all && sig in st.transitions.Keys + st.errors.Keys)
    ensures r.Failure? ==> Justified(r.error, all)
  {
    var signals: set<Signal> := {};
    var todo := m.Keys;
    while todo != {}
      invariant todo <= m.Keys
      invariant forall i :: i in m && i !in todo ==>
        TargetsKnown(m.Keys, m[i]) && m[i].transitions.Keys + m[i].errors.Keys <= signals
      invariant forall sig :: sig in signals ==> exists st :: st in all && sig in st.transitions.Keys + st.errors.Keys
    {
      var i := Pick(todo);
      assert m[i] in all;
      var unknown := FindUnknownTarget(m.Keys, m[i].transitions);
      if unknown.None? {
        unknown := FindUnknownTarget(m.Keys, m[i].errors);
      }
      if unknown.Some? {
        return Failure(UnknownState(unknown.value));
      }
      signals := signals + m[i].transitions.Keys + m[i].errors.Keys;
      todo := todo - {i};
    }

    todo := m.Keys;
    while todo != {}
      invariant todo <= m.Keys
      invariant forall i :: i in m && i !in todo ==> ActionsKnown(m[i])
    {
      var i := Pick(todo);
      assert m[i] in all;
      var bad := FindBadAction(m[i]);
      if bad.Some? {
        return Failure(bad.value);
      }
      todo := todo - {i};
    }

    todo := m.Keys;
    while todo != {}
      invariant todo <= m.Keys
      invariant forall i :: i in m && i !in todo ==> LimitsKnown(m[i])
    {
      var i := Pick(todo);
      assert m[i] in all;
      if m[i].ttl.ttl > 0 && m[i].ttl.raise !in m[i].transitions {
        return Failure(UnknownSignal(m[i].ttl.raise));
      }
      if m[i].visit.value > 0 && m[i].visit.raise !in m[i].transitions {
        return Failure(UnknownSignal(m[i].visit.raise));
      }
      todo := todo - {i};
    }
    r := Success(signals);
  }

  method FindUnknownTarget(known: set<Index>, transfer: map<Signal, Index>) returns (r: Option<Index>)
    ensures r.None? <==> forall sig :: sig in transfer ==> transfer[sig] in known
    ensures r.Some? ==> r.value !in known && exists sig :: sig in transfer && transfer[sig] == r.value
  {
    var todo := transfer.Keys;
    while todo != {}
      invariant todo <= transfer.Keys
      invariant forall sig :: sig in transfer && sig !in todo ==> transfer[sig] in known
    {
      var sig := Pick(todo);
      if transfer[sig] !in known {
        return Some(transfer[sig]);
      }
      todo := todo - {sig};
    }
    r := None;
  }

  method FindBadAction(st: State) returns (r: Option<Error>)
    ensures r.None? <==> ActionsKnown(st)
    ensures r.Some? ==>
      match r.value
      case UnknownTransition(sig, i) => i == st.index && sig in st.actions && sig !in st.transitions
      case NilAction(sig) => sig in st.actions && st.actions[sig].None?
      case _ => false
  {
    var todo := st.actions.Keys;
    while todo != {}
      invariant todo <= st.actions.Keys
      invariant forall sig :: sig in st.actions && sig !in todo ==> sig in st.transitions && st.actions[sig].Some?
    {
      var sig := Pick(todo);
      if sig !in st.transitions {
        return Some(UnknownTransition(sig, st.index));
      }
      if st.actions[sig].None? {
        return Some(NilAction(sig));
      }
      todo := todo - {sig};
    }
    r := None;
  }

  // ---------- Lookups ----------

  /** The expiry of a state that has a positive TTL. */
  function ExpiryOf(spec: Spec, current: Index): Result<Option<Expiry>, Error> {
    if current !in spec.states then Failure(UnknownState(current))
    else if spec.states[current].ttl.ttl > 0 then Success(Some(spec.states[current].ttl))
    else Success(None)
  }

  function VisitLimitOf(spec: Spec, next: Index): Result<Option<Limit>, Error> {
    if next !in spec.states then Failure(UnknownState(next))
    else if spec.states[next].visit.value > 0 then Success(Some(spec.states[next].visit))
    else Success(None)
  }

  function ErrorTarget(spec: Spec, current: Index, signal: Signal): Result<Index, Error> {
    if current !in spec.states then Failure(UnknownState(current))
    else if signal !in spec.signals then Failure(UnknownSignal(signal))
    else if signal !in spec.states[current].errors then Failure(UnknownTransition(signal, current))
    else Success(spec.states[current].errors[signal])
  }

  function NextState(spec: Spec, current: Index, signal: Signal): (r: Result<(Index, bool), Error>)
    ensures Sound(spec) && r.Success? ==> r.value.0 in spec.states
  {
    if current !in spec.states then Failure(UnknownState(current))
    else
      var st := spec.states[current];
      if |st.transitions| == 0 then Failure(NoTransitions)
      else if signal !in spec.signals then Failure(UnknownSignal(signal))
      else if signal !in st.transitions then Failure(UnknownTransition(signal, st.index))
      else Success((st.transitions[signal], signal in st.actions))
  }

  /** The flap rule for a pair of states, whichever way the transition goes. */
  function FlapRule(spec: Spec, a: Index, b: Index): Option<Flap> {
    var key := if a > b then (b, a) else (a, b);
    if key in spec.flaps then Some(spec.flaps[key]) else None
  }
}
