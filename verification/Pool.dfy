/** The pool controller: its state machine and the throttling of Provision and Destroy
    (pkg/controller/pool, pkg/controller/internal/collection.go). */
module Pool {
  import opened Wrappers
  import opened FsmSpec
  import opened Sets

  // ---------- The state machine of a pool member ----------

  const REQUESTED: Index := 0
  const PROVISIONING: Index := 1
  const WAITING: Index := 2
  const WAITING_TERMINATE: Index := 3
  const READY: Index := 4
  const CANNOT_PROVISION: Index := 5
  const CANNOT_TERMINATE: Index := 6
  const UNMATCHED: Index := 7
  const TERMINATING: Index := 8
  const TERMINATED: Index := 9
  const THROTTLED: Index := 10
  const TERMINATE_THROTTLED: Index := 11

  const RESOURCE_FOUND: Signal := 12
  const RESOURCE_LOST: Signal := 13
  const PROVISION: Signal := 14
  const PROVISION_ERROR: Signal := 15
  const DEPENDENCY_MISSING: Signal := 16
  const DEPENDENCY_READY: Signal := 17
  const TERMINATE: Signal := 18
  const TERMINATE_ERROR: Signal := 19
  const CLEANUP: Signal := 20
  const THROTTLE: Signal := 21

  /** The channels that actions send on. */
  const TO_PROVISION: ActionRef := Some(0)
  const TO_DESTROY: ActionRef := Some(1)
  const TO_PENDING: ActionRef := Some(2)
  const TO_READY: ActionRef := Some(3)
  const TO_CLEANUP: ActionRef := Some(4)

  function Transitions(i: Index): map<Signal, Index> {
    if i == REQUESTED || i == THROTTLED then
      map[RESOURCE_FOUND := READY, RESOURCE_LOST := PROVISIONING, PROVISION := PROVISIONING]
    else if i == PROVISIONING then
      map[DEPENDENCY_MISSING := WAITING, RESOURCE_FOUND := READY, THROTTLE := THROTTLED,
          PROVISION_ERROR := CANNOT_PROVISION]
    else if i == TERMINATE_THROTTLED then map[RESOURCE_LOST := TERMINATED, TERMINATE := TERMINATING]
    else if i == TERMINATING then
      map[DEPENDENCY_MISSING := WAITING_TERMINATE, RESOURCE_LOST := TERMINATED, TERMINATE_ERROR := CANNOT_TERMINATE,
          THROTTLE := TERMINATE_THROTTLED]
    else if i == WAITING then map[DEPENDENCY_MISSING := WAITING, DEPENDENCY_READY := PROVISIONING]
    else if i == WAITING_TERMINATE then
      map[DEPENDENCY_MISSING := WAITING_TERMINATE, DEPENDENCY_READY := TERMINATING, RESOURCE_LOST := TERMINATED]
    else if i == READY then map[RESOURCE_LOST := PROVISIONING, RESOURCE_FOUND := READY, TERMINATE := TERMINATING]
    else if i == CANNOT_PROVISION then map[RESOURCE_FOUND := READY]
    else if i == UNMATCHED then map[TERMINATE := TERMINATING]
    else if i == TERMINATED then map[CLEANUP := TERMINATED]
    else map[]
  }

  function Actions(i: Index): map<Signal, ActionRef> {
    if i == REQUESTED || i == THROTTLED then map[PROVISION := TO_PROVISION]
    else if i == PROVISIONING then map[DEPENDENCY_MISSING := TO_PENDING, RESOURCE_FOUND := TO_READY]
    else if i == TERMINATE_THROTTLED || i == UNMATCHED then map[TERMINATE := TO_DESTROY]
    else if i == TERMINATING then map[DEPENDENCY_MISSING := TO_PENDING]
    else if i == WAITING then map[DEPENDENCY_READY := TO_PROVISION]
    else if i == WAITING_TERMINATE then map[DEPENDENCY_READY := TO_DESTROY]
    else if i == READY then map[RESOURCE_LOST := TO_PROVISION, TERMINATE := TO_DESTROY]
    else if i == TERMINATED then map[CLEANUP := TO_CLEANUP]
    else map[]
  }

  function Timeout(i: Index, waitBeforeProvision: Tick, waitBeforeDestroy: Tick): Expiry {
    if i == REQUESTED then Expiry(waitBeforeProvision, PROVISION)
    else if i == THROTTLED then Expiry(1, PROVISION)
    else if i == TERMINATE_THROTTLED then Expiry(1, TERMINATE)
    else if i == UNMATCHED then Expiry(waitBeforeDestroy, TERMINATE)
    else if i == TERMINATED then Expiry(waitBeforeDestroy, CLEANUP)
    else Expiry(0, 0)
  }

  function Table(waitBeforeProvision: Tick, waitBeforeDestroy: Tick): seq<State> {
    seq(12, i => State(i, Transitions(i), Actions(i), map[],
                       Timeout(i, waitBeforeProvision, waitBeforeDestroy), Limit(0, 0)))
  }

  lemma RowIsSound(i: Index)
    requires 0 <= i < 12
    ensures forall sig <- Transitions(i) :: 0 <= Transitions(i)[sig] < 12
    ensures forall sig <- Actions(i) :: sig in Transitions(i) && Actions(i)[sig].Some?
    ensures forall wp, wd :: Timeout(i, wp, wd).ttl > 0 ==> Timeout(i, wp, wd).raise in Transitions(i)
  {}

  /** The engine accepts the table of the pool, whatever the wait times: the guarantees for runs of accepted
      specifications hold for every pool. */
  lemma TableIsAccepted(waitBeforeProvision: Tick, waitBeforeDestroy: Tick)
    ensures var all := Table(waitBeforeProvision, waitBeforeDestroy);
            Unique(all) && forall st <- all :: StateSound(Indices(all), st)
  {
    hide Transitions, Actions, Timeout;
    var all := Table(waitBeforeProvision, waitBeforeDestroy);
    forall i: Index | 0 <= i < 12 ensures i in Indices(all) {
      assert all[i] in all;
    }
    forall st | st in all ensures StateSound(Indices(all), st) {
      RowIsSound(st.index);
    }
  }

  // ---------- Runs ----------

  datatype Kind = Provision | Destroy

  function Busy(kind: Kind): Index {
    if kind == Provision then PROVISIONING else TERMINATING
  }

  /** A member, and which operations have been issued for it since it entered its state. */
  datatype Member = Member(state: Index, issued: set<Kind>)

  /** The event loop is idle, or it handles a request: it has still to read the states of `left` and has read those
      of `counted` as busy. */
  datatype Phase = Idle | Counting(kind: Kind, item: nat, left: set<nat>, counted: set<nat>)

  datatype Pool = Pool(members: map<nat, Member>, requests: multiset<(Kind, nat)>, phase: Phase)

  datatype Step =
    | Signalled(id: nat, signal: Signal)
    | Add(added: nat, unmatched: bool)
    | Delete(deleted: nat)
    | Begin(kind: Kind, item: nat)
    | Read(read: nat)
    | Decide(issue: bool)

  function Sends(action: map<Signal, ActionRef>, signal: Signal, id: nat): multiset<(Kind, nat)> {
    if signal !in action then multiset{}
    else if action[signal] == TO_PROVISION then multiset{(Provision, id)}
    else if action[signal] == TO_DESTROY then multiset{(Destroy, id)}
    else multiset{}
  }

  function OnSignal(p: Pool, id: nat, signal: Signal): Pool {
    if id in p.members && signal in Transitions(p.members[id].state) then
      var from := p.members[id].state;
      p.(members := p.members[id := Member(Transitions(from)[signal], {})],
         requests := p.requests + Sends(Actions(from), signal, id))
    else p
  }

  function OnAdd(p: Pool, id: nat, unmatched: bool): Pool {
    if id in p.members then p
    else p.(members := p.members[id := Member(if unmatched then UNMATCHED else REQUESTED, {})])
  }

  function OnBegin(p: Pool, kind: Kind, item: nat): Pool {
    if p.phase.Idle? && (kind, item) in p.requests then
      p.(requests := p.requests - multiset{(kind, item)},
         phase := if item in p.members then Counting(kind, item, p.members.Keys, {}) else Idle)
    else p
  }

  function OnRead(p: Pool, id: nat): Pool {
    if p.phase.Counting? && id in p.phase.left then
      var busy := id in p.members && p.members[id].state == Busy(p.phase.kind);
      p.(phase := p.phase.(left := p.phase.left - {id}, counted := p.phase.counted + if busy then {id} else {}))
    else p
  }

  /** A decision issues the operation only if no more than `parallelism` members were counted; it may also not issue
      it, when no spec can be built or nothing is there to destroy. */
  function OnDecide(p: Pool, issue: bool, parallelism: int): Pool {
    if p.phase.Counting? && p.phase.left == {} then
      var m := p.members;
      var issued := if issue && parallelism >= |p.phase.counted| then WithIssued(m, p.phase.item, p.phase.kind) else m;
      p.(members := issued, phase := Idle)
    else p
  }

  /** One step; one that is not possible does nothing. */
  function Next(p: Pool, step: Step, parallelism: int): Pool {
    match step
    case Signalled(id, signal) => OnSignal(p, id, signal)
    case Add(id, unmatched) => OnAdd(p, id, unmatched)
    case Delete(id) => p.(members := p.members - {id})
    case Begin(kind, item) => OnBegin(p, kind, item)
    case Read(id) => OnRead(p, id)
    case Decide(issue) => OnDecide(p, issue, parallelism)
  }

  function WithIssued(members: map<nat, Member>, item: nat, kind: Kind): map<nat, Member> {
    if item in members then members[item := Member(members[item].state, members[item].issued + {kind})] else members
  }

  /** Members in the busy state whose operation was issued since they entered it. */
  function InFlight(members: map<nat, Member>, kind: Kind): set<nat> {
    set id | id in members && members[id].state == Busy(kind) && kind in members[id].issued
  }

  function Run(steps: seq<Step>, parallelism: int): Pool {
    if steps == [] then Pool(map[], multiset{}, Idle)
    else Next(Run(steps[..|steps| - 1], parallelism), steps[|steps| - 1], parallelism)
  }

  // ---------- What the count covers ----------

  /** All that is in flight has been counted or is still to be read. */
  predicate Covered(p: Pool) {
    p.phase.Counting? ==> InFlight(p.members, p.phase.kind) <= p.phase.left + p.phase.counted
  }

  /** A signal, a new member or a lost one puts nothing in flight. */
  lemma OutsideStepsOnlyLower(p: Pool, step: Step, parallelism: int, kind: Kind)
    requires step.Signalled? || step.Add? || step.Delete?
    ensures InFlight(Next(p, step, parallelism).members, kind) <= InFlight(p.members, kind)
    ensures Next(p, step, parallelism).phase == p.phase
  {
    hide Transitions, Actions, Sends;
  }

  lemma IssuedInFlight(members: map<nat, Member>, item: nat, kind: Kind, other: Kind)
    ensures InFlight(WithIssued(members, item, kind), other)
         == InFlight(members, other)
            + if kind == other && item in members && members[item].state == Busy(kind) then {item} else {}
  {}

  lemma StepKeepsCovered(p: Pool, step: Step, parallelism: int)
    requires Covered(p)
    ensures Covered(Next(p, step, parallelism))
  {
    hide Transitions, Actions, Sends;
    if (step.Signalled? || step.Add? || step.Delete?) && p.phase.Counting? {
      OutsideStepsOnlyLower(p, step, parallelism, p.phase.kind);
    }
  }

  /** A negative parallelism lets nothing through. */
  function Bound(parallelism: int): nat {
    if parallelism < 0 then 0 else parallelism
  }

  predicate Within(p: Pool, bound: nat) {
    |InFlight(p.members, Provision)| <= bound && |InFlight(p.members, Destroy)| <= bound
  }

  /** The step issues an operation for a member that was not busy when the count read its state. */
  predicate IssuesUncounted(p: Pool, step: Step) {
    step == Decide(true) && p.phase.Counting? && p.phase.left == {} && p.phase.item !in p.phase.counted
  }

  lemma DecideKeeps(p: Pool, issue: bool, parallelism: int, kind: Kind)
    requires Covered(p)
    ensures var before, after := InFlight(p.members, kind), InFlight(Next(p, Decide(issue), parallelism).members, kind);
            && (|after| <= |before| || |after| <= Bound(parallelism) + 1)
            && (!IssuesUncounted(p, Decide(issue)) ==> |after| <= |before| || |after| <= Bound(parallelism))
  {
    if issue && p.phase.Counting? && p.phase.left == {} && parallelism >= |p.phase.counted| {
      var before := InFlight(p.members, kind);
      IssuedInFlight(p.members, p.phase.item, p.phase.kind, kind);
      if kind == p.phase.kind {
        Fewer(before, p.phase.counted);
        var after := InFlight(WithIssued(p.members, p.phase.item, kind), kind);
        Fewer(after, before + {p.phase.item});
        if p.phase.item in p.phase.counted {
          Fewer(after, p.phase.counted);
        }
      } else {
        assert InFlight(WithIssued(p.members, p.phase.item, p.phase.kind), kind) == before;
      }
    }
  }

  lemma StepKeepsWithin(p: Pool, step: Step, parallelism: int, bound: nat)
    requires Covered(p) && Within(p, bound)
    requires bound >= Bound(parallelism) + 1 || (bound == Bound(parallelism) && !IssuesUncounted(p, step))
    ensures Within(Next(p, step, parallelism), bound)
  {
    hide InFlight, Transitions, Actions, Sends, WithIssued, Covered, IssuesUncounted;
    match step {
      case Decide(issue) =>
        DecideKeeps(p, issue, parallelism, Provision);
        DecideKeeps(p, issue, parallelism, Destroy);
      case Begin(_, _) =>
      case Read(_) =>
      case _ =>
        OutsideStepsOnlyLower(p, step, parallelism, Provision);
        OutsideStepsOnlyLower(p, step, parallelism, Destroy);
        Fewer(InFlight(Next(p, step, parallelism).members, Provision), InFlight(p.members, Provision));
        Fewer(InFlight(Next(p, step, parallelism).members, Destroy), InFlight(p.members, Destroy));
    }
  }

  /** In every run, never more than one above the parallelism; and never above it, unless the run at some point issues
      an operation for a member that had not been busy when its state was read. */
  lemma {:induction false} EveryRunWithin(steps: seq<Step>, parallelism: int)
    ensures Covered(Run(steps, parallelism)) && Within(Run(steps, parallelism), Bound(parallelism) + 1)
    ensures (forall i :: 0 <= i < |steps| ==> !IssuesUncounted(Run(steps[..i], parallelism), steps[i])) ==>
              Within(Run(steps, parallelism), Bound(parallelism))
  {
    if steps != [] {
      var n := |steps| - 1;
      var init := steps[..n];
      EveryRunWithin(init, parallelism);
      var p := Run(init, parallelism);
      StepKeepsCovered(p, steps[n], parallelism);
      StepKeepsWithin(p, steps[n], parallelism, Bound(parallelism) + 1);
      if forall i :: 0 <= i < |steps| ==> !IssuesUncounted(Run(steps[..i], parallelism), steps[i]) {
        forall i | 0 <= i < n ensures !IssuesUncounted(Run(init[..i], parallelism), init[i]) {
          assert init[..i] == steps[..i];
        }
        StepKeepsWithin(p, steps[n], parallelism, Bound(parallelism));
      }
    }
  }

  /** Exactly when an issue oversteps: as many as allowed are in flight already, and the member is busy now though it
      was not when it was counted. */
  lemma IssueOverstepsExactly(p: Pool, parallelism: nat)
    requires Covered(p) && p.phase.Counting? && p.phase.left == {} && |p.phase.counted| <= parallelism
    ensures var Counting(kind, item, _, counted) := p.phase;
            |InFlight(Next(p, Decide(true), parallelism).members, kind)| > parallelism <==>
              && |InFlight(p.members, kind)| == parallelism
              && item in p.members && p.members[item].state == Busy(kind) && item !in counted
  {
    var Counting(kind, item, _, counted) := p.phase;
    var before := InFlight(p.members, kind);
    IssuedInFlight(p.members, item, kind, kind);
    Fewer(before, counted);
    if |before| == parallelism {
      SameSize(before, counted);
    }
  }

  /** The step issues an operation and so oversteps. */
  predicate Oversteps(p: Pool, step: Step, parallelism: int) {
    && step == Decide(true) && p.phase.Counting? && p.phase.left == {} && |p.phase.counted| <= parallelism
    && |InFlight(p.members, p.phase.kind)| == parallelism
    && p.phase.item in p.members && p.members[p.phase.item].state == Busy(p.phase.kind)
    && p.phase.item !in p.phase.counted
  }

  lemma StepStaysWithin(p: Pool, step: Step, parallelism: int)
    requires Covered(p) && Within(p, Bound(parallelism))
    ensures Within(Next(p, step, parallelism), Bound(parallelism)) <==> !Oversteps(p, step, parallelism)
  {
    hide InFlight, Transitions, Actions, Sends, Covered, OnSignal, OnAdd;
    if step == Decide(true) && p.phase.Counting? && p.phase.left == {} && |p.phase.counted| <= parallelism {
      IssueOverstepsExactly(p, parallelism);
      var other := if p.phase.kind == Provision then Destroy else Provision;
      IssuedInFlight(p.members, p.phase.item, p.phase.kind, other);
      assert InFlight(p.members, other) + {} == InFlight(p.members, other);
    } else if IssuesUncounted(p, step) {
      assert Next(p, step, parallelism).members == p.members;
    } else {
      StepKeepsWithin(p, step, parallelism, Bound(parallelism));
    }
  }

  lemma ShorterRun(steps: seq<Step>, k: nat, parallelism: int)
    requires k < |steps|
    ensures Run(steps[..k + 1], parallelism) == Next(Run(steps[..k], parallelism), steps[k], parallelism)
  {
    assert steps[..k + 1] == steps[..k] + [steps[k]];
    Unroll(steps[..k], steps[k], parallelism);
  }

  lemma {:induction false} WithinUpTo(steps: seq<Step>, k: nat, parallelism: int)
    requires k <= |steps|
    requires forall i :: 0 <= i < k ==> !Oversteps(Run(steps[..i], parallelism), steps[i], parallelism)
    ensures Within(Run(steps[..k], parallelism), Bound(parallelism))
    decreases k
  {
    hide Next, Oversteps;
    if k == 0 {
      assert steps[..0] == [];
    } else {
      WithinUpTo(steps, k - 1, parallelism);
      EveryRunWithin(steps[..k - 1], parallelism);
      ShorterRun(steps, k - 1, parallelism);
      StepStaysWithin(Run(steps[..k - 1], parallelism), steps[k - 1], parallelism);
    }
  }

  /** A run stays within the parallelism all along if and only if none of its steps oversteps. */
  lemma WithinExactly(steps: seq<Step>, parallelism: int)
    ensures (forall k :: 0 <= k <= |steps| ==> Within(Run(steps[..k], parallelism), Bound(parallelism))) <==>
            (forall i :: 0 <= i < |steps| ==> !Oversteps(Run(steps[..i], parallelism), steps[i], parallelism))
  {
    hide Run, Within, Oversteps, Next;
    if forall i :: 0 <= i < |steps| ==> !Oversteps(Run(steps[..i], parallelism), steps[i], parallelism) {
      forall k | 0 <= k <= |steps| ensures Within(Run(steps[..k], parallelism), Bound(parallelism)) {
        WithinUpTo(steps, k, parallelism);
      }
    } else {
      var i :| 0 <= i < |steps| && Oversteps(Run(steps[..i], parallelism), steps[i], parallelism);
      EveryRunWithin(steps[..i], parallelism);
      ShorterRun(steps, i, parallelism);
      if Within(Run(steps[..i], parallelism), Bound(parallelism)) {
        StepStaysWithin(Run(steps[..i], parallelism), steps[i], parallelism);
        assert !Within(Run(steps[..i + 1], parallelism), Bound(parallelism));
      }
    }
  }

  lemma Unroll(steps: seq<Step>, step: Step, parallelism: int)
    ensures Run(steps + [step], parallelism) == Next(Run(steps, parallelism), step, parallelism)
  {
    assert (steps + [step])[..|steps|] == steps;
  }

  // ---------- A run that oversteps ----------

  /** Signals that may reach a member while the event loop counts: those the clock raises, and those other goroutines
      send. All others are sent by the event loop itself, which is busy counting. */
  predicate MayFallInCount(state: Index, signal: Signal) {
    || signal == PROVISION_ERROR || signal == TERMINATE_ERROR || signal == TERMINATE
    || (Timeout(state, 1, 1).ttl > 0 && Timeout(state, 1, 1).raise == signal)
  }

  predicate CanHappen(p: Pool, step: Step) {
    p.phase.Counting? ==>
      match step
      case Signalled(id, signal) => id in p.members && MayFallInCount(p.members[id].state, signal)
      case Add(_, _) => false
      case Delete(_) => false
      case _ => true
  }

  /** While the event loop counts, nothing happens that it would have to do itself. */
  ghost predicate Performable(steps: seq<Step>, parallelism: int) {
    forall i :: 0 <= i < |steps| ==> CanHappen(Run(steps[..i], parallelism), steps[i])
  }

  ghost predicate Leads(s: seq<Step>, p: Pool, parallelism: int) {
    Performable(s, parallelism) && Run(s, parallelism) == p
  }

  lemma LeadsOn(s: seq<Step>, p: Pool, step: Step, parallelism: int)
    requires Leads(s, p, parallelism) && CanHappen(p, step)
    ensures Leads(s + [step], Next(p, step, parallelism), parallelism)
  {
    hide CanHappen, Next, Run;
    Unroll(s, step, parallelism);
    var more := s + [step];
    forall i | 0 <= i < |more| ensures CanHappen(Run(more[..i], parallelism), more[i]) {
      if i < |s| {
        assert more[..i] == s[..i];
      } else {
        assert more[..i] == s;
      }
    }
  }

  lemma OneRequested(s: seq<Step>, p: Pool, id: nat, parallelism: int) returns (s': seq<Step>)
    requires Leads(s, p, parallelism) && p.phase.Idle? && id !in p.members
    ensures Leads(s', Pool(p.members[id := Member(PROVISIONING, {})], p.requests + multiset{(Provision, id)}, Idle),
                  parallelism)
  {
    hide Leads, OnBegin, OnRead, OnDecide;
    LeadsOn(s, p, Add(id, false), parallelism);
    var q := Next(p, Add(id, false), parallelism);
    LeadsOn(s + [Add(id, false)], q, Signalled(id, PROVISION), parallelism);
    s' := s + [Add(id, false)] + [Signalled(id, PROVISION)];
    assert q.members[id := Member(PROVISIONING, {})] == p.members[id := Member(PROVISIONING, {})];
  }

  lemma NothingYet(parallelism: int)
    ensures Leads([], Pool(map[], multiset{}, Idle), parallelism)
  {}

  lemma TwoRequested(parallelism: int) returns (s: seq<Step>)
    ensures Leads(s, Pool(map[0 := Member(PROVISIONING, {}), 1 := Member(READY, {})],
                          multiset{(Provision, 0), (Provision, 1)}, Idle), parallelism)
  {
    hide Leads, OnBegin, OnRead, OnDecide;
    NothingYet(parallelism);
    s := OneRequested([], Pool(map[], multiset{}, Idle), 0, parallelism);
    var one := Pool(map[0 := Member(PROVISIONING, {})], multiset{(Provision, 0)}, Idle);
    assert map[][0 := Member(PROVISIONING, {})] == one.members && multiset{} + multiset{(Provision, 0)} == one.requests;
    s := OneRequested(s, one, 1, parallelism);
    var two := Pool(map[0 := Member(PROVISIONING, {}), 1 := Member(PROVISIONING, {})],
                    multiset{(Provision, 0), (Provision, 1)}, Idle);
    assert one.members[1 := Member(PROVISIONING, {})] == two.members
           && one.requests + multiset{(Provision, 1)} == two.requests;
    LeadsOn(s, two, Signalled(1, RESOURCE_FOUND), parallelism);
    s := s + [Signalled(1, RESOURCE_FOUND)];
    assert two.members[1 := Member(READY, {})] == map[0 := Member(PROVISIONING, {}), 1 := Member(READY, {})];
    assert two.requests + multiset{} == two.requests;
  }

  /** Of two members, the count of those busy. */
  lemma CountOfTwo(members: map<nat, Member>, requests: multiset<(Kind, nat)>, kind: Kind, item: nat)
    requires members.Keys == {0, 1} && (kind, item) in requests && item in {0, 1}
    ensures OnRead(OnRead(OnBegin(Pool(members, requests, Idle), kind, item), 0), 1)
         == Pool(members, requests - multiset{(kind, item)},
                 Counting(kind, item, {}, set id | id in members && members[id].state == Busy(kind)))
  {
    var rest := requests - multiset{(kind, item)};
    var busy := set id | id in members && members[id].state == Busy(kind);
    var first := if members[0].state == Busy(kind) then {0} else {};
    assert OnRead(Pool(members, rest, Counting(kind, item, {0, 1}, {})), 0)
        == Pool(members, rest, Counting(kind, item, {1}, first)) by {
      assert {0, 1} - {0} == {1} && {} + first == first;
    }
    assert OnRead(Pool(members, rest, Counting(kind, item, {1}, first)), 1)
        == Pool(members, rest, Counting(kind, item, {}, busy)) by {
      assert {1} - {1} == {} && first + (if members[1].state == Busy(kind) then {1} else {}) == busy;
    }
  }

  lemma Counted(s: seq<Step>, members: map<nat, Member>, requests: multiset<(Kind, nat)>, kind: Kind, item: nat,
                parallelism: int)
    returns (s': seq<Step>)
    requires Leads(s, Pool(members, requests, Idle), parallelism)
    requires members.Keys == {0, 1} && (kind, item) in requests && item in {0, 1}
    ensures Leads(s', Pool(members, requests - multiset{(kind, item)},
                           Counting(kind, item, {}, set id | id in members && members[id].state == Busy(kind))),
                  parallelism)
  {
    hide Leads, OnBegin, OnRead;
    var p := Pool(members, requests, Idle);
    LeadsOn(s, p, Begin(kind, item), parallelism);
    s' := s + [Begin(kind, item)];
    LeadsOn(s', OnBegin(p, kind, item), Read(0), parallelism);
    s' := s' + [Read(0)];
    LeadsOn(s', OnRead(OnBegin(p, kind, item), 0), Read(1), parallelism);
    s' := s' + [Read(1)];
    CountOfTwo(members, requests, kind, item);
  }

  lemma FirstIssued(parallelism: int) returns (s: seq<Step>)
    requires parallelism == 1
    ensures Leads(s, Pool(map[0 := Member(PROVISIONING, {Provision}), 1 := Member(READY, {})],
                          multiset{(Provision, 1)}, Idle),
                  parallelism)
  {
    hide Leads, OnBegin, OnRead, OnSignal;
    s := TwoRequested(parallelism);
    var members := map[0 := Member(PROVISIONING, {}), 1 := Member(READY, {})];
    s := Counted(s, members, multiset{(Provision, 0), (Provision, 1)}, Provision, 0, parallelism);
    assert (set id | id in members && members[id].state == PROVISIONING) == {0};
    assert multiset{(Provision, 0), (Provision, 1)} - multiset{(Provision, 0)} == multiset{(Provision, 1)};
    LeadsOn(s, Pool(members, multiset{(Provision, 1)}, Counting(Provision, 0, {}, {0})), Decide(true), parallelism);
    s := s + [Decide(true)];
    assert members[0 := Member(PROVISIONING, {} + {Provision})] ==
           map[0 := Member(PROVISIONING, {Provision}), 1 := Member(READY, {})];
  }

  /** The second is lost, which asks for it once more; its first request is throttled, and that signal arrives. */
  lemma SecondThrottled(parallelism: int) returns (s: seq<Step>)
    requires parallelism == 1
    ensures Leads(s, Pool(map[0 := Member(PROVISIONING, {Provision}), 1 := Member(THROTTLED, {})],
                          multiset{(Provision, 1)}, Idle),
                  parallelism)
  {
    hide Leads, OnBegin, OnRead;
    s := FirstIssued(parallelism);
    var ready := map[0 := Member(PROVISIONING, {Provision}), 1 := Member(READY, {})];
    LeadsOn(s, Pool(ready, multiset{(Provision, 1)}, Idle), Signalled(1, RESOURCE_LOST), parallelism);
    s := s + [Signalled(1, RESOURCE_LOST)];
    var busy := map[0 := Member(PROVISIONING, {Provision}), 1 := Member(PROVISIONING, {})];
    assert ready[1 := Member(PROVISIONING, {})] == busy;
    var twice := multiset{(Provision, 1)} + multiset{(Provision, 1)};
    s := Counted(s, busy, twice, Provision, 1, parallelism);
    assert (set id | id in busy && busy[id].state == PROVISIONING) == {0, 1};
    assert twice - multiset{(Provision, 1)} == multiset{(Provision, 1)};
    LeadsOn(s, Pool(busy, multiset{(Provision, 1)}, Counting(Provision, 1, {}, {0, 1})), Decide(true), parallelism);
    s := s + [Decide(true)];
    LeadsOn(s, Pool(busy, multiset{(Provision, 1)}, Idle), Signalled(1, THROTTLE), parallelism);
    s := s + [Signalled(1, THROTTLE)];
    assert busy[1 := Member(THROTTLED, {})] == map[0 := Member(PROVISIONING, {Provision}), 1 := Member(THROTTLED, {})];
    assert multiset{(Provision, 1)} + multiset{} == multiset{(Provision, 1)};
  }

  /** With a parallelism of 1, its default, two members have their Provision in flight. The second was found and lost
      while a request for it waited, so there are two; the first of them is throttled, and the throttling expires
      while the members are counted for the other. */
  lemma OneTooMany(parallelism: int) returns (s: seq<Step>)
    requires parallelism == 1
    ensures Performable(s, parallelism) && InFlight(Run(s, parallelism).members, Provision) == {0, 1}
  {
    hide Leads, OnBegin, OnRead, InFlight;
    s := SecondThrottled(parallelism);
    var members := map[0 := Member(PROVISIONING, {Provision}), 1 := Member(THROTTLED, {})];
    s := Counted(s, members, multiset{(Provision, 1)}, Provision, 1, parallelism);
    assert (set id | id in members && members[id].state == PROVISIONING) == {0};
    assert multiset{(Provision, 1)} - multiset{(Provision, 1)} == multiset{};
    var p := Pool(members, multiset{}, Counting(Provision, 1, {}, {0}));
    LeadsOn(s, p, Signalled(1, PROVISION), parallelism);
    s := s + [Signalled(1, PROVISION)];
    var q := Next(p, Signalled(1, PROVISION), parallelism);
    assert q.members == map[0 := Member(PROVISIONING, {Provision}), 1 := Member(PROVISIONING, {})];
    LeadsOn(s, q, Decide(true), parallelism);
    s := s + [Decide(true)];
    IssuedInFlight(q.members, 1, Provision, Provision);
    FirstInFlight(q.members);
    LedTo(s, Next(q, Decide(true), parallelism), parallelism);
  }

  lemma LedTo(s: seq<Step>, p: Pool, parallelism: int)
    requires Leads(s, p, parallelism)
    ensures Performable(s, parallelism) && Run(s, parallelism) == p
  {}

  lemma FirstInFlight(members: map<nat, Member>)
    requires members == map[0 := Member(PROVISIONING, {Provision}), 1 := Member(PROVISIONING, {})]
    ensures InFlight(members, Provision) == {0}
  {}

  // ---------- The event loop ----------

  /** Only what happens outside the event loop. Adds and deletes during a count are more than the lock on the items
      lets through, and any signal more than MayFallInCount: the bounds hold all the same. */
  predicate Outside(step: Step) {
    step.Signalled? || step.Add? || step.Delete?
  }

  class Collection {
    const parallelism: int
    var members: map<nat, Member>
    var requests: multiset<(Kind, nat)>
    /** Everything that has happened. */
    ghost var history: seq<Step>

    /** The history has led here. */
    ghost predicate Shows(phase: Phase)
      reads this
    {
      Run(history, parallelism) == Pool(members, requests, phase)
    }

    constructor (parallelism: int)
      ensures Shows(Idle) && this.parallelism == parallelism && history == []
    {
      this.parallelism := parallelism;
      members, requests, history := map[], multiset{}, [];
    }

    /** Signals, new members and deletions, at any time. */
    method Elapse(steps: seq<Step>, ghost phase: Phase)
      requires Shows(phase) && forall s <- steps :: Outside(s)
      modifies this
      ensures Shows(phase) && history == old(history) + steps
    {
      hide Run, Next;
      ghost var was := history;
      for i := 0 to |steps|
        invariant Shows(phase) && history == was + steps[..i]
      {
        Unroll(history, steps[i], parallelism);
        var next := Next(Pool(members, requests, Idle), steps[i], parallelism);
        PhaseDoesNotMatter(Pool(members, requests, phase), steps[i], parallelism);
        members, requests, history := next.members, next.requests, history + [steps[i]];
        assert steps[..i + 1] == steps[..i] + [steps[i]];
      }
      assert steps[..|steps|] == steps;
    }

    method ReadState(id: nat, kind: Kind, ghost item: nat, ghost left: set<nat>, ghost counted: set<nat>)
      returns (busy: bool)
      requires Shows(Counting(kind, item, left, counted)) && id in left
      modifies `history
      ensures busy <==> id in members && members[id].state == Busy(kind)
      ensures Shows(Counting(kind, item, left - {id}, if busy then counted + {id} else counted))
      ensures history == old(history) + [Read(id)]
    {
      hide Run, OnSignal, OnBegin, OnDecide;
      Unroll(history, Read(id), parallelism);
      history := history + [Read(id)];
      busy := id in members && members[id].state == Busy(kind);
      assert counted + {} == counted;
    }

    /** Reads the states of all members, one after another in any order, while others go on changing them. */
    method GetCountByState(kind: Kind, ghost item: nat, env: nat -> seq<Step>)
      returns (count: nat, ghost counted: set<nat>)
      requires Shows(Counting(kind, item, members.Keys, {})) && forall i, s | s in env(i) :: Outside(s)
      modifies this
      ensures Shows(Counting(kind, item, {}, counted)) && count == |counted|
      ensures old(history) <= history
    {
      hide Run;
      var left := members.Keys;
      count, counted := 0, {};
      var i := 0;
      while left != {}
        invariant Shows(Counting(kind, item, left, counted)) && count == |counted| && counted !! left
        invariant old(history) <= history
        decreases |left|
      {
        Elapse(env(i), Counting(kind, item, left, counted));
        i := i + 1;
        var id := Pick(left);
        var busy := ReadState(id, kind, item, left, counted);
        left := left - {id};
        if busy {
          count, counted := count + 1, counted + {id};
        }
      }
    }

    method Conclude(kind: Kind, item: nat, possible: bool, count: nat, ghost counted: set<nat>) returns (issued: bool)
      requires Shows(Counting(kind, item, {}, counted)) && count == |counted|
      modifies this
      ensures Shows(Idle) && history == old(history) + [Decide(possible)]
      ensures issued <==> possible && count <= parallelism
    {
      Unroll(history, Decide(possible), parallelism);
      history := history + [Decide(possible)];
      issued := parallelism >= count && possible;
      if issued {
        members := WithIssued(members, item, kind);
      }
    }

    /** Handles one request to provision or destroy: throttled when more members are busy than the parallelism, and
        otherwise issued, if that can be done. */
    method Handle(kind: Kind, item: nat, possible: bool, env: nat -> seq<Step>, late: seq<Step>)
      returns (issued: bool, count: nat)
      requires Shows(Idle) && (kind, item) in requests
      requires (forall i, s | s in env(i) :: Outside(s)) && forall s <- late :: Outside(s)
      modifies this
      ensures Shows(Idle) && old(history) < history
      ensures issued <==> item in old(members) && possible && count <= parallelism
      ensures Within(Run(history, parallelism), Bound(parallelism) + 1)
    {
      hide OnSignal, OnRead, OnDecide, InFlight, Run, Within;
      Unroll(history, Begin(kind, item), parallelism);
      requests, history := requests - multiset{(kind, item)}, history + [Begin(kind, item)];
      count, issued := 0, false;
      if item in members {
        ghost var counted;
        count, counted := GetCountByState(kind, item, env);
        Elapse(late, Counting(kind, item, {}, counted));
        issued := Conclude(kind, item, possible, count, counted);
      }
      EveryRunWithin(history, parallelism);
    }
  }

  lemma PhaseDoesNotMatter(p: Pool, step: Step, parallelism: int)
    requires Outside(step)
    ensures Next(p, step, parallelism) == Next(p.(phase := Idle), step, parallelism).(phase := p.phase)
  {
    hide Transitions, Actions, Sends;
  }
}
