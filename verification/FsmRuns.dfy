/**
 Runs of a set of state machine instances, one transaction a step (pkg/fsm/set.go): the states a set goes
 through as values, the relation each handler establishes, and what every run keeps. R stands for the
 references by which the member map, the index by state and the deadline queue share one instance.
 */
module FsmRuns {
  import opened Wrappers
  import opened FsmSpec
  import opened Heap
  import Flap = FlapHistory

  type ID = nat

  datatype Txn = Tick | Add(initial: Index) | Delete(id: ID) | Event(id: ID, signal: Signal) | Read

  /** An instance. The id it was born with outlives deletion, which zeroes id. */
  datatype Inst = Inst(
    id: ID,
    born: ID,
    state: Index,
    start: Time,
    deadline: Time,
    visits: map<Index, nat>,
    entries: nat,
    history: seq<Index>)

  /** One TTL signal: the instance, the id it is sent to, which stay in which state it ends, and when. */
  datatype Firing<R> = Firing(inst: R, target: ID, entry: nat, state: Index, start: Time, at: Time)

  datatype View<R> = View(
    now: Time,
    next: ID,
    members: map<ID, R>,
    bystate: map<Index, map<ID, R>>,
    insts: map<R, Inst>,        // every instance ever added
    queue: seq<R>,
    txns: seq<Txn>,
    owner: map<ID, R>,          // every id ever given out, and the instance it went to
    fired: seq<Firing<R>>,      // every TTL signal raised
    disordered: bool)           // the root was given a deadline later than one below it

  // ---------- What the handlers do ----------

  function Ttl(spec: Spec, state: Index): int {
    if state in spec.states && spec.states[state].ttl.ttl > 0 then spec.states[state].ttl.ttl else 0
  }

  function Visits(i: Inst, state: Index): nat {
    if state in i.visits then i.visits[state] else 0
  }

  function Entered(spec: Spec, i: Inst, state: Index, now: Time): (n: Inst)
    ensures n.state == state && n.id == i.id
  {
    i.(state := state, start := now, deadline := if Ttl(spec, state) > 0 then now + Ttl(spec, state) else 0,
       visits := i.visits[state := Visits(i, state) + 1], entries := i.entries + 1)
  }

  function Raised(spec: Spec, id: ID, signal: Signal): seq<Txn> {
    if signal in spec.signals then [Event(id, signal)] else []
  }

  ghost predicate AtRoot<R>(v: View<R>, o: R) {
    v.queue != [] && v.queue[0] == o
  }

  ghost function Keys<R>(insts: map<R, Inst>, q: seq<R>): (d: seq<Time>)
    ensures |d| == |q|
  {
    seq(|q|, i requires 0 <= i < |q| => if q[i] in insts then insts[q[i]].deadline else 0)
  }

  /** q is the queue once instance o has become n: in it with a deadline, out of it without, but stuck at the root. */
  ghost predicate Requeued<R>(v: View<R>, o: R, n: Inst, q: seq<R>) {
    && NoDup(q)
    && Entries(q) == (if n.deadline > 0 then Entries(v.queue) + {o}
                    else if AtRoot(v, o) then Entries(v.queue)
                    else Entries(v.queue) - {o})
    && (AtRoot(v, o) ==> q == v.queue)
    && (Ordered(Keys(v.insts, v.queue)) ==>
          (Ordered(Keys(v.insts[o := n], q)) <==> !AtRoot(v, o) || Below(Keys(v.insts[o := n], q), 0)))
  }

  function Linked<R>(bystate: map<Index, map<ID, R>>, s: Index, id: ID, o: R): map<Index, map<ID, R>>
    requires s in bystate
  {
    var row: map<ID, R> := bystate[s];
    bystate[s := row[id := o]]
  }

  function Unlinked<R>(bystate: map<Index, map<ID, R>>, s: Index, id: ID): map<Index, map<ID, R>>
    requires s in bystate
  {
    bystate[s := bystate[s] - {id}]
  }

  function NewInst(id: ID, initial: Index): Inst {
    Inst(id, id, initial, 0, 0, map[initial := 1], 0, [])
  }

  function Added<R>(spec: Spec, v: View<R>, initial: Index, o: R, queue: seq<R>): View<R>
    requires initial in v.bystate
  {
    v.(next := v.next + 1, members := v.members[v.next := o], bystate := Linked(v.bystate, initial, v.next, o),
       insts := v.insts[o := Entered(spec, NewInst(v.next, initial), initial, v.now)], queue := queue,
       owner := v.owner[v.next := o])
  }

  ghost predicate AddStep<R>(spec: Spec, v: View<R>, initial: Index, o: R, w: View<R>) {
    if initial !in spec.states || initial !in v.bystate then
      w == v.(next := v.next + 1)
    else
      && o !in v.insts
      && Requeued(v, o, Entered(spec, NewInst(v.next, initial), initial, v.now), w.queue)
      && w == Added(spec, v, initial, o, w.queue)
  }

  /** A member with its entry in the index by state; Exact says that every member is one. */
  predicate Known<R>(v: View<R>, id: ID) {
    id in v.members && v.members[id] in v.insts && v.insts[v.members[id]].state in v.bystate
  }

  function DeleteStep<R>(v: View<R>, id: ID): View<R> {
    if !Known(v, id) then v
    else
      var o := v.members[id];
      var s := v.insts[o].state;
      v.(members := v.members - {id}, bystate := Unlinked(v.bystate, s, id),
         insts := v.insts[o := v.insts[o].(id := 0)])
  }

  /** The state an accepted signal leads to; an action that fails may divert it. */
  function Landing(spec: Spec, current: Index, signal: Signal, actionFails: bool): (r: Result<Index, Error>)
    ensures Sound(spec) && r.Success? ==> r.value in spec.states
  {
    match NextState(spec, current, signal)
    case Failure(e) => Failure(e)
    case Success((next, hasAction)) =>
      if !(hasAction && actionFails) then Success(next)
      else
        match ErrorTarget(spec, current, signal)
        case Failure(_) => Success(next)
        case Success(alternate) => Success(alternate)
  }

  /** The history after this transition is recorded, and whether the limit for the pair is reached. */
  ghost function FlapCheck(spec: Spec, i: Inst, next: Index): (seq<Index>, Option<Signal>) {
    match FlapRule(spec, i.state, next)
    case None => (i.history, None)
    case Some(rule) =>
      if rule.count <= 0 then (i.history, None)
      else
        var h := Flap.Recorded(i.history, i.state, next);
        (h, if Flap.FlapsUpTo(h, Flap.Pattern(h, i.state, next), |h|) >= rule.count then Some(rule.raise) else None)
  }

  function VisitRaise(spec: Spec, i: Inst): seq<Txn> {
    match VisitLimitOf(spec, i.state)
    case Success(Some(limit)) => if Visits(i, i.state) == limit.value then Raised(spec, i.id, limit.raise) else []
    case _ => []
  }

  ghost function MovedMember<R>(spec: Spec, v: View<R>, id: ID, from: Index, n: Inst, queue: seq<R>): View<R>
    requires Known(v, id) && from in v.bystate && n.state in v.bystate
  {
    var o := v.members[id];
    v.(insts := v.insts[o := n], queue := queue,
       bystate := Linked(Unlinked(v.bystate, from, id), n.state, id, o),
       txns := v.txns + VisitRaise(spec, n),
       disordered := v.disordered || (AtRoot(v, o) && !Below(Keys(v.insts[o := n], queue), 0)))
  }

  /** A member enters a state. */
  ghost predicate EnterStep<R>(spec: Spec, v: View<R>, id: ID, i: Inst, land: Index, w: View<R>)
    requires Known(v, id) && i.state in v.bystate && land in v.bystate
  {
    var n := Entered(spec, i, land, v.now);
    Requeued(v, v.members[id], n, w.queue) && w == MovedMember(spec, v, id, i.state, n, w.queue)
  }

  ghost predicate EventStep<R>(spec: Spec, v: View<R>, id: ID, signal: Signal, actionFails: bool, w: View<R>) {
    if !Known(v, id) then w == v
    else
      var o := v.members[id];
      var i := v.insts[o];
      match NextState(spec, i.state, signal)
      case Failure(_) => w == v
      case Success((next, _)) =>
        var (h, flapping) := FlapCheck(spec, i, next);
        if flapping.Some? then
          w == v.(insts := v.insts[o := i.(history := h)], txns := v.txns + Raised(spec, i.id, flapping.value))
        else
          var land := Landing(spec, i.state, signal, actionFails).value;
          land in v.bystate && EnterStep(spec, v, id, i.(history := h), land, w)
  }

  ghost predicate Armed(spec: Spec, i: Inst) {
    i.deadline > 0 && Ttl(spec, i.state) > 0
  }

  ghost function FiringOf<R>(insts: map<R, Inst>, o: R, now: Time): Firing<R>
    requires o in insts
  {
    Firing(o, insts[o].id, insts[o].entries, insts[o].state, insts[o].start, now)
  }

  /** The signals raised for the instances a tick takes from the queue, in that order. */
  ghost function Firings<R>(spec: Spec, insts: map<R, Inst>, out: seq<R>, now: Time): seq<Firing<R>> {
    if out == [] then []
    else
      var o := out[|out| - 1];
      Firings(spec, insts, out[..|out| - 1], now) +
      if o in insts && Armed(spec, insts[o]) then [FiringOf(insts, o, now)] else []
  }

  ghost function Signals<R>(spec: Spec, firings: seq<Firing<R>>): seq<Txn> {
    if firings == [] then []
    else
      var f := firings[|firings| - 1];
      Signals(spec, firings[..|firings| - 1]) +
      if f.state in spec.states then Raised(spec, f.target, spec.states[f.state].ttl.raise) else []
  }

  function Unarmed<R>(insts: map<R, Inst>, out: set<R>): map<R, Inst> {
    map o | o in insts :: if o in out then insts[o].(deadline := -1) else insts[o]
  }

  ghost function Ticked<R>(spec: Spec, v: View<R>, out: seq<R>, queue: seq<R>): View<R> {
    var firings := Firings(spec, v.insts, out, v.now + 1);
    v.(now := v.now + 1, insts := Unarmed(v.insts, Entries(out)), queue := queue,
       txns := v.txns + Signals(spec, firings), fired := v.fired + firings)
  }

  /** The instances in out, all due, have left the queue one after another; q is what is left. */
  ghost predicate Taken<R>(v: View<R>, out: seq<R>, q: seq<R>, now: Time) {
    && NoDup(out)
    && Entries(out) <= Entries(v.queue)
    && Entries(q) == Entries(v.queue) - Entries(out)
    && (forall o :: o in out ==> o in v.insts && v.insts[o].deadline <= now)
  }

  /** A tick takes instances from the root until the root is not due; out lists them in that order. */
  ghost predicate TickStep<R>(spec: Spec, v: View<R>, out: seq<R>, w: View<R>) {
    && Taken(v, out, w.queue, v.now + 1) && NoDup(w.queue)
    && (w.queue == [] || (w.queue[0] in v.insts && v.insts[w.queue[0]].deadline > v.now + 1))
    && (Ordered(Keys(v.insts, v.queue)) ==> Ordered(Keys(v.insts, w.queue)))
    && w == Ticked(spec, v, out, w.queue)
  }

  // ---------- Invariants ----------

  /** The index by state lists exactly the members in each state, under their ids. */
  ghost predicate Exact<R>(members: map<ID, R>, bystate: map<Index, map<ID, R>>, insts: map<R, Inst>) {
    && (forall id :: id in members ==> members[id] in insts && insts[members[id]].state in bystate)
    && (forall s :: s in bystate ==> RowExact(members, bystate[s], insts, s))
  }

  ghost predicate RowExact<R>(members: map<ID, R>, row: map<ID, R>, insts: map<R, Inst>, s: Index)
    requires forall id :: id in members ==> members[id] in insts
  {
    forall id ::
      && (id in row <==> id in members && insts[members[id]].state == s)
      && (id in row ==> row[id] == members[id])
  }

  /** Ids are below next and belong to one instance ever; a member is the instance its id belongs to, and an instance
      that is no longer a member has id 0. */
  ghost predicate Named<R>(members: map<ID, R>, insts: map<R, Inst>, owner: map<ID, R>, next: ID) {
    && (forall id :: id in owner ==> id < next && owner[id] in insts && insts[owner[id]].born == id)
    && (forall o :: o in insts ==> insts[o].born in owner && owner[insts[o].born] == o)
    && (forall id :: id in members ==> id in owner && members[id] == owner[id] && insts[owner[id]].id == id)
    && (forall o :: o in insts && insts[o].born !in members ==> insts[o].id == 0)
  }

  ghost predicate InstOk(spec: Spec, i: Inst, now: Time, disordered: bool) {
    && i.state in spec.states
    && 0 <= i.start <= now
    && (i.deadline > 0 ==> Ttl(spec, i.state) > 0 && i.deadline == i.start + Ttl(spec, i.state))
    && (i.deadline > 0 && !disordered ==> i.deadline > now)
    && Flap.Alternating(i.history)
  }

  /** Known states and coherent times; while the queue is in order no armed deadline has passed. */
  ghost predicate AllOk<R>(spec: Spec, insts: map<R, Inst>, now: Time, disordered: bool) {
    forall o :: o in insts ==> InstOk(spec, insts[o], now, disordered)
  }

  /** Every armed instance is queued, once. */
  ghost predicate QueueOk<R>(insts: map<R, Inst>, queue: seq<R>) {
    && NoDup(queue)
    && (forall o :: o in queue ==> o in insts && insts[o].deadline >= 0)
    && (forall o :: o in insts && insts[o].deadline > 0 ==> o in queue)
  }

  ghost predicate FiringOk<R>(spec: Spec, insts: map<R, Inst>, f: Firing<R>) {
    && f.inst in insts
    && Ttl(spec, f.state) > 0
    && f.at - f.start >= Ttl(spec, f.state)
    && f.entry <= insts[f.inst].entries
    && (insts[f.inst].deadline > 0 ==> f.entry < insts[f.inst].entries)
  }

  /** Every TTL signal came no earlier than its TTL allows, once per stay in a state. */
  ghost predicate FiredOk<R>(spec: Spec, insts: map<R, Inst>, fired: seq<Firing<R>>) {
    && (forall k :: 0 <= k < |fired| ==> FiringOk(spec, insts, fired[k]))
    && (forall j, k :: 0 <= j < k < |fired| ==> fired[j].inst != fired[k].inst || fired[j].entry != fired[k].entry)
  }

  ghost predicate Inv<R>(spec: Spec, v: View<R>) {
    && Sound(spec) && v.now >= 0 && v.bystate.Keys == spec.states.Keys
    && Exact(v.members, v.bystate, v.insts)
    && Named(v.members, v.insts, v.owner, v.next)
    && AllOk(spec, v.insts, v.now, v.disordered)
    && QueueOk(v.insts, v.queue)
    && FiredOk(spec, v.insts, v.fired)
    && (!v.disordered ==> Ordered(Keys(v.insts, v.queue)))
  }

  // ---------- Parts of the steps keep parts of the invariant ----------

  lemma LinkKeepsExact<R>(members: map<ID, R>, bystate: map<Index, map<ID, R>>, insts: map<R, Inst>, id: ID, o: R,
                          n: Inst)
    requires Exact(members, bystate, insts) && id !in members && o !in insts && n.state in bystate
    ensures Exact(members[id := o], Linked(bystate, n.state, id, o), insts[o := n])
  {
    var bystate' := Linked(bystate, n.state, id, o);
    forall s | s in bystate'
      ensures RowExact(members[id := o], bystate'[s], insts[o := n], s)
    {
      assert RowExact(members, bystate[s], insts, s);
    }
  }

  lemma UnlinkKeepsExact<R>(members: map<ID, R>, bystate: map<Index, map<ID, R>>, insts: map<R, Inst>, id: ID)
    requires Exact(members, bystate, insts) && id in members
    ensures var o := members[id];
            Exact(members - {id}, Unlinked(bystate, insts[o].state, id), insts[o := insts[o].(id := 0)])
  {
    var o := members[id];
    var insts' := insts[o := insts[o].(id := 0)];
    var bystate' := Unlinked(bystate, insts[o].state, id);
    forall s | s in bystate'
      ensures RowExact(members - {id}, bystate'[s], insts', s)
    {
      assert RowExact(members, bystate[s], insts, s);
    }
  }

  lemma MoveKeepsExact<R>(members: map<ID, R>, bystate: map<Index, map<ID, R>>, insts: map<R, Inst>, id: ID, n: Inst)
    requires Exact(members, bystate, insts) && id in members && n.state in bystate
    requires forall p :: p in members && members[p] == members[id] ==> p == id
    ensures var o := members[id];
            Exact(members, Linked(Unlinked(bystate, insts[o].state, id), n.state, id, o), insts[o := n])
  {
    var o := members[id];
    var insts' := insts[o := n];
    var bystate' := Linked(Unlinked(bystate, insts[o].state, id), n.state, id, o);
    forall s | s in bystate'
      ensures RowExact(members, bystate'[s], insts', s)
    {
      assert RowExact(members, bystate[s], insts, s);
    }
  }

  lemma RequeueKeepsQueueOk<R>(v: View<R>, o: R, n: Inst, q: seq<R>)
    requires QueueOk(v.insts, v.queue) && Requeued(v, o, n, q)
    requires n.deadline >= 0
    ensures QueueOk(v.insts[o := n], q)
  {
    assert forall x :: x in q <==> x in Entries(q);
    assert forall x :: x in v.queue <==> x in Entries(v.queue);
  }

  /** Entering a state starts a new stay, so no earlier signal counts against it. */
  lemma EnterKeepsFired<R>(spec: Spec, insts: map<R, Inst>, fired: seq<Firing<R>>, o: R, n: Inst)
    requires FiredOk(spec, insts, fired)
    requires o in insts ==> n.entries > insts[o].entries
    ensures FiredOk(spec, insts[o := n], fired)
  {
    forall k | 0 <= k < |fired|
      ensures FiringOk(spec, insts[o := n], fired[k])
    {
      assert FiringOk(spec, insts, fired[k]);
    }
  }

  // ---------- One clock tick ----------

  /** Exactly one signal for each armed instance taken from the queue, and none for the others. */
  lemma {:induction false} FiringsAreTheArmed<R>(spec: Spec, insts: map<R, Inst>, out: seq<R>, now: Time)
    requires NoDup(out) && forall o :: o in out ==> o in insts
    ensures var fs := Firings(spec, insts, out, now);
            && (forall k :: 0 <= k < |fs| ==>
                fs[k].inst in out && Armed(spec, insts[fs[k].inst]) && fs[k] == FiringOf(insts, fs[k].inst, now))
            && (forall j, k :: 0 <= j < k < |fs| ==> fs[j].inst != fs[k].inst)
            && (forall o :: o in out && Armed(spec, insts[o]) ==> FiringOf(insts, o, now) in fs)
  {
    if out != [] {
      var rest, last := out[..|out| - 1], out[|out| - 1];
      assert out == rest + [last];
      FiringsAreTheArmed(spec, insts, rest, now);
    }
  }

  /** With a specification Define accepted, each firing puts its signal on the transactions. */
  lemma {:induction false} EveryFiringIsSent<R>(spec: Spec, fs: seq<Firing<R>>)
    requires Sound(spec) && forall k :: 0 <= k < |fs| ==> Ttl(spec, fs[k].state) > 0
    ensures |Signals(spec, fs)| == |fs|
    ensures forall k :: 0 <= k < |fs| ==>
              && fs[k].state in spec.states
              && Signals(spec, fs)[k] == Event(fs[k].target, spec.states[fs[k].state].ttl.raise)
  {
    if fs != [] {
      EveryFiringIsSent(spec, fs[..|fs| - 1]);
      var f := fs[|fs| - 1];
      assert StateSound(spec.states.Keys, spec.states[f.state]);
      assert spec.states[f.state].ttl.raise in spec.states[f.state].transitions.Keys + spec.states[f.state].errors.Keys;
    }
  }

  lemma OrderedMeansLater<R>(insts: map<R, Inst>, q: seq<R>, t: Time)
    requires Ordered(Keys(insts, q)) && (forall o :: o in q ==> o in insts)
    requires q == [] || insts[q[0]].deadline > t
    ensures forall o :: o in q ==> insts[o].deadline > t
  {
    if q != [] {
      RootIsMin(Keys(insts, q), |q|);
      forall o | o in q
        ensures insts[o].deadline > t
      {
        var k :| 0 <= k < |q| && q[k] == o;
        assert Keys(insts, q)[k] == insts[o].deadline;
      }
    }
  }

  /** From a heap-ordered queue a tick takes exactly the instances that are due and leaves the later ones. */
  lemma TickTakesExactlyTheDue<R>(spec: Spec, v: View<R>, out: seq<R>, w: View<R>)
    requires QueueOk(v.insts, v.queue) && Ordered(Keys(v.insts, v.queue)) && TickStep(spec, v, out, w)
    ensures forall o :: o in out <==> o in v.queue && v.insts[o].deadline <= v.now + 1
    ensures forall o :: o in w.queue <==> o in v.queue && v.insts[o].deadline > v.now + 1
  {
    assert forall o :: o in w.queue <==> o in Entries(w.queue);
    assert forall o :: o in v.queue <==> o in Entries(v.queue);
    assert forall o :: o in out <==> o in Entries(out);
    OrderedMeansLater(v.insts, w.queue, v.now + 1);
  }

  lemma TickKeepsAllOk<R>(spec: Spec, v: View<R>, out: seq<R>, w: View<R>)
    requires Inv(spec, v) && TickStep(spec, v, out, w)
    ensures AllOk(spec, w.insts, w.now, w.disordered)
  {
    if !v.disordered {
      TickTakesExactlyTheDue(spec, v, out, w);
    }
    forall o | o in w.insts
      ensures InstOk(spec, w.insts[o], w.now, w.disordered)
    {
      assert InstOk(spec, v.insts[o], v.now, v.disordered);
    }
  }

  lemma TickKeepsQueue<R>(spec: Spec, v: View<R>, out: seq<R>, w: View<R>)
    requires QueueOk(v.insts, v.queue) && TickStep(spec, v, out, w)
    ensures QueueOk(w.insts, w.queue)
    ensures Ordered(Keys(v.insts, v.queue)) ==> Ordered(Keys(w.insts, w.queue))
  {
    assert forall o :: o in w.queue <==> o in Entries(w.queue);
    assert forall o :: o in v.queue <==> o in Entries(v.queue);
    assert forall o :: o in out <==> o in Entries(out);
    assert Keys(w.insts, w.queue) == Keys(v.insts, w.queue);
  }

  lemma OldFiringsStayOk<R>(spec: Spec, insts: map<R, Inst>, fired: seq<Firing<R>>, out: set<R>)
    requires FiredOk(spec, insts, fired)
    ensures FiredOk(spec, Unarmed(insts, out), fired)
  {
    forall k | 0 <= k < |fired|
      ensures FiringOk(spec, Unarmed(insts, out), fired[k])
    {
      assert FiringOk(spec, insts, fired[k]);
    }
  }

  /** The signals of one tick: each is due, and none of those stays has had its signal before. */
  lemma NewFiringsAreOk<R>(spec: Spec, insts: map<R, Inst>, fired: seq<Firing<R>>, out: seq<R>, now: Time)
    requires FiredOk(spec, insts, fired) && NoDup(out)
    requires forall o :: o in out ==>
      && o in insts && insts[o].deadline <= now
      && (insts[o].deadline > 0 ==> insts[o].deadline == insts[o].start + Ttl(spec, insts[o].state))
    ensures FiredOk(spec, Unarmed(insts, Entries(out)), fired + Firings(spec, insts, out, now))
  {
    var fs := Firings(spec, insts, out, now);
    FiringsAreTheArmed(spec, insts, out, now);
    forall k | 0 <= k < |fs|
      ensures FiringOk(spec, Unarmed(insts, Entries(out)), fs[k])
    {
      assert fs[k] == FiringOf(insts, fs[k].inst, now);
    }
    forall j, k | 0 <= j < |fired| && 0 <= k < |fs|
      ensures fired[j].inst != fs[k].inst || fired[j].entry != fs[k].entry
    {
      assert FiringOk(spec, insts, fired[j]);
      assert fs[k] == FiringOf(insts, fs[k].inst, now);
    }
    OldFiringsStayOk(spec, insts, fired, Entries(out));
    JoinFirings(spec, Unarmed(insts, Entries(out)), fired, fs);
  }

  lemma TickKeepsFired<R>(spec: Spec, v: View<R>, out: seq<R>, w: View<R>)
    requires Inv(spec, v) && TickStep(spec, v, out, w)
    ensures FiredOk(spec, w.insts, w.fired)
  {
    hide Exact, Named, FiredOk, FiringOk, Sound, Keys, Ordered;
    forall o | o in out
      ensures o in v.queue && InstOk(spec, v.insts[o], v.now, v.disordered)
    {
      assert o in Entries(out);
    }
    NewFiringsAreOk(spec, v.insts, v.fired, out, v.now + 1);
  }

  lemma JoinFirings<R>(spec: Spec, insts: map<R, Inst>, old_: seq<Firing<R>>, new_: seq<Firing<R>>)
    requires FiredOk(spec, insts, old_)
    requires forall k :: 0 <= k < |new_| ==> FiringOk(spec, insts, new_[k])
    requires forall j, k :: 0 <= j < k < |new_| ==> new_[j].inst != new_[k].inst
    requires forall j, k :: 0 <= j < |old_| && 0 <= k < |new_| ==>
               old_[j].inst != new_[k].inst || old_[j].entry != new_[k].entry
    ensures FiredOk(spec, insts, old_ + new_)
  {
  }

  lemma TickKeepsIndex<R>(members: map<ID, R>, bystate: map<Index, map<ID, R>>, insts: map<R, Inst>, out: set<R>)
    requires Exact(members, bystate, insts)
    ensures Exact(members, bystate, Unarmed(insts, out))
  {
    forall s | s in bystate
      ensures RowExact(members, bystate[s], Unarmed(insts, out), s)
    {
      assert RowExact(members, bystate[s], insts, s);
    }
  }

  lemma TickKeepsNames<R>(members: map<ID, R>, insts: map<R, Inst>, owner: map<ID, R>, next: ID, out: set<R>)
    requires Named(members, insts, owner, next)
    ensures Named(members, Unarmed(insts, out), owner, next)
  {
  }

  lemma TickKeepsInv<R>(spec: Spec, v: View<R>, out: seq<R>, w: View<R>)
    requires Inv(spec, v) && TickStep(spec, v, out, w)
    ensures Inv(spec, w)
  {
    hide Exact, Named, AllOk, QueueOk, FiredOk;
    TickKeepsAllOk(spec, v, out, w);
    TickKeepsQueue(spec, v, out, w);
    TickKeepsFired(spec, v, out, w);
    TickKeepsIndex(v.members, v.bystate, v.insts, Entries(out));
    TickKeepsNames(v.members, v.insts, v.owner, v.next, Entries(out));
  }

  // ---------- The other transactions ----------

  lemma MemberFacts<R>(spec: Spec, v: View<R>, id: ID)
    requires Inv(spec, v) && id in v.members
    ensures Known(v, id) && v.insts[v.members[id]].id == id == v.insts[v.members[id]].born
    ensures InstOk(spec, v.insts[v.members[id]], v.now, v.disordered)
    ensures forall p :: p in v.members && v.members[p] == v.members[id] ==> p == id
  {
    hide Exact, QueueOk, FiredOk;
  }

  lemma FreshFacts<R>(spec: Spec, v: View<R>, o: R)
    requires Inv(spec, v) && o !in v.insts
    ensures v.next !in v.members && !AtRoot(v, o)
  {
    hide Exact, AllOk, FiredOk;
  }

  lemma ReplaceKeepsAllOk<R>(spec: Spec, insts: map<R, Inst>, now: Time, disordered: bool, o: R, n: Inst)
    requires AllOk(spec, insts, now, disordered) && InstOk(spec, n, now, disordered)
    ensures AllOk(spec, insts[o := n], now, disordered)
  {
  }

  lemma AddKeepsNames<R>(members: map<ID, R>, insts: map<R, Inst>, owner: map<ID, R>, next: ID, o: R, n: Inst)
    requires Named(members, insts, owner, next) && o !in insts && n.id == n.born == next
    ensures Named(members[next := o], insts[o := n], owner[next := o], next + 1)
  {
  }

  lemma SkippedIdKeepsNames<R>(members: map<ID, R>, insts: map<R, Inst>, owner: map<ID, R>, next: ID)
    requires Named(members, insts, owner, next)
    ensures Named(members, insts, owner, next + 1)
  {
  }

  lemma AddKeepsInv<R>(spec: Spec, v: View<R>, initial: Index, o: R, w: View<R>)
    requires Inv(spec, v) && AddStep(spec, v, initial, o, w)
    ensures Inv(spec, w)
  {
    hide Exact, Named, AllOk, QueueOk, FiredOk;
    if initial in spec.states {
      var n := Entered(spec, NewInst(v.next, initial), initial, v.now);
      FreshFacts(spec, v, o);
      LinkKeepsExact(v.members, v.bystate, v.insts, v.next, o, n);
      AddKeepsNames(v.members, v.insts, v.owner, v.next, o, n);
      ReplaceKeepsAllOk(spec, v.insts, v.now, v.disordered, o, n);
      RequeueKeepsQueueOk(v, o, n, w.queue);
      EnterKeepsFired(spec, v.insts, v.fired, o, n);
    } else {
      SkippedIdKeepsNames(v.members, v.insts, v.owner, v.next);
    }
  }

  lemma DeleteKeepsNames<R>(members: map<ID, R>, insts: map<R, Inst>, owner: map<ID, R>, next: ID, id: ID)
    requires Named(members, insts, owner, next) && id in members
    ensures Named(members - {id}, insts[members[id] := insts[members[id]].(id := 0)], owner, next)
  {
  }

  lemma DeleteKeepsQueue<R>(insts: map<R, Inst>, queue: seq<R>, o: R)
    requires QueueOk(insts, queue) && o in insts
    ensures var insts' := insts[o := insts[o].(id := 0)];
            && QueueOk(insts', queue)
            && Keys(insts', queue) == Keys(insts, queue)
  {
  }

  lemma DeleteKeepsFired<R>(spec: Spec, insts: map<R, Inst>, fired: seq<Firing<R>>, o: R)
    requires FiredOk(spec, insts, fired) && o in insts
    ensures FiredOk(spec, insts[o := insts[o].(id := 0)], fired)
  {
    forall k | 0 <= k < |fired|
      ensures FiringOk(spec, insts[o := insts[o].(id := 0)], fired[k])
    {
      assert FiringOk(spec, insts, fired[k]);
    }
  }

  lemma DeleteKeepsInv<R>(spec: Spec, v: View<R>, id: ID)
    requires Inv(spec, v)
    ensures Inv(spec, DeleteStep(v, id))
  {
    hide Exact, Named, AllOk, QueueOk, FiredOk;
    if id in v.members {
      MemberFacts(spec, v, id);
      var o := v.members[id];
      UnlinkKeepsExact(v.members, v.bystate, v.insts, id);
      DeleteKeepsNames(v.members, v.insts, v.owner, v.next, id);
      DeleteKeepsQueue(v.insts, v.queue, o);
      DeleteKeepsFired(spec, v.insts, v.fired, o);
      ReplaceKeepsAllOk(spec, v.insts, v.now, v.disordered, o, v.insts[o].(id := 0));
    }
  }

  lemma EventKeepsNames<R>(members: map<ID, R>, insts: map<R, Inst>, owner: map<ID, R>, next: ID, o: R, n: Inst)
    requires Named(members, insts, owner, next) && o in insts && n.id == insts[o].id && n.born == insts[o].born
    ensures Named(members, insts[o := n], owner, next)
  {
  }

  lemma RecordKeepsAlternating(h: seq<Index>, a: Index, b: Index)
    requires Flap.Alternating(h)
    ensures Flap.Alternating(Flap.Recorded(h, a, b))
  {
  }

  lemma RecordKeepsExact<R>(members: map<ID, R>, bystate: map<Index, map<ID, R>>, insts: map<R, Inst>, o: R, n: Inst)
    requires Exact(members, bystate, insts) && o in insts && n.state == insts[o].state
    ensures Exact(members, bystate, insts[o := n])
  {
    forall s | s in bystate
      ensures RowExact(members, bystate[s], insts[o := n], s)
    {
      assert RowExact(members, bystate[s], insts, s);
    }
  }

  lemma RecordKeepsQueue<R>(insts: map<R, Inst>, queue: seq<R>, o: R, h: seq<Index>)
    requires QueueOk(insts, queue) && o in insts
    ensures var insts' := insts[o := insts[o].(history := h)];
            QueueOk(insts', queue) && Keys(insts', queue) == Keys(insts, queue)
  {
  }

  lemma RecordKeepsFired<R>(spec: Spec, insts: map<R, Inst>, fired: seq<Firing<R>>, o: R, h: seq<Index>)
    requires FiredOk(spec, insts, fired) && o in insts
    ensures FiredOk(spec, insts[o := insts[o].(history := h)], fired)
  {
    forall k | 0 <= k < |fired|
      ensures FiringOk(spec, insts[o := insts[o].(history := h)], fired[k])
    {
      assert FiringOk(spec, insts, fired[k]);
    }
  }

  /** Recording a transition that the flap limit then stops. */
  lemma FlapKeepsInv<R>(spec: Spec, v: View<R>, id: ID, h: seq<Index>, txns: seq<Txn>)
    requires Inv(spec, v) && Known(v, id) && Flap.Alternating(h)
    ensures var o := v.members[id];
            Inv(spec, v.(insts := v.insts[o := v.insts[o].(history := h)], txns := txns))
  {
    hide Exact, Named, AllOk, QueueOk, FiredOk;
    MemberFacts(spec, v, id);
    var o := v.members[id];
    var n := v.insts[o].(history := h);
    RecordKeepsExact(v.members, v.bystate, v.insts, o, n);
    EventKeepsNames(v.members, v.insts, v.owner, v.next, o, n);
    ReplaceKeepsAllOk(spec, v.insts, v.now, v.disordered, o, n);
    RecordKeepsQueue(v.insts, v.queue, o, h);
    RecordKeepsFired(spec, v.insts, v.fired, o, h);
  }

  /** A deadline set in the present is later than now, so only the queue's order is at stake. */
  lemma DisorderKeepsAllOk<R>(spec: Spec, insts: map<R, Inst>, now: Time, disordered: bool, disordered': bool)
    requires AllOk(spec, insts, now, disordered) && (disordered ==> disordered')
    ensures AllOk(spec, insts, now, disordered')
  {
  }

  lemma EnterKeepsInv<R>(spec: Spec, v: View<R>, id: ID, i: Inst, land: Index, w: View<R>)
    requires Inv(spec, v) && Known(v, id) && land in spec.states
    requires i == v.insts[v.members[id]].(history := i.history) && Flap.Alternating(i.history)
    requires EnterStep(spec, v, id, i, land, w)
    ensures Inv(spec, w)
  {
    hide Exact, Named, AllOk, QueueOk, FiredOk;
    MemberFacts(spec, v, id);
    var o, n := v.members[id], Entered(spec, i, land, v.now);
    MoveKeepsExact(v.members, v.bystate, v.insts, id, n);
    EventKeepsNames(v.members, v.insts, v.owner, v.next, o, n);
    ReplaceKeepsAllOk(spec, v.insts, v.now, v.disordered, o, n);
    DisorderKeepsAllOk(spec, v.insts[o := n], v.now, v.disordered, w.disordered);
    RequeueKeepsQueueOk(v, o, n, w.queue);
    EnterKeepsFired(spec, v.insts, v.fired, o, n);
  }

  lemma EventKeepsInv<R>(spec: Spec, v: View<R>, id: ID, signal: Signal, actionFails: bool, w: View<R>)
    requires Inv(spec, v) && EventStep(spec, v, id, signal, actionFails, w)
    ensures Inv(spec, w)
  {
    hide Exact, Named, AllOk, QueueOk, FiredOk, Entered, Requeued, Unlinked, Linked, EnterStep, Sound;
    if Known(v, id) {
      MemberFacts(spec, v, id);
      hide Inv;
      var o := v.members[id];
      var i := v.insts[o];
      match NextState(spec, i.state, signal)
      case Failure(_) =>
      case Success((next, _)) =>
        var (h, flapping) := FlapCheck(spec, i, next);
        RecordKeepsAlternating(i.history, i.state, next);
        if flapping.Some? {
          FlapKeepsInv(spec, v, id, h, w.txns);
        } else {
          EnterKeepsInv(spec, v, id, i.(history := h), Landing(spec, i.state, signal, actionFails).value, w);
        }
    }
  }

  // ---------- Runs ----------

  /** What is not determined by the transaction: the new instance, what a tick takes, how an action ends. */
  datatype Choice<R> = AddAs(o: R) | TakeOut(out: seq<R>) | ActionEnds(fails: bool) | NoChoice

  datatype Move<R> = Submit(txn: Txn) | Process(choice: Choice<R>)

  /** The transaction loop: inputs join the end of the queue, processing takes its head. */
  ghost predicate Step<R>(spec: Spec, v: View<R>, move: Move<R>, w: View<R>) {
    match move
    case Submit(txn) => w == v.(txns := v.txns + [txn])
    case Process(choice) =>
      && v.txns != []
      && var u := v.(txns := v.txns[1..]);
         match (v.txns[0], choice)
         case (Add(initial), AddAs(o)) => AddStep(spec, u, initial, o, w)
         case (Delete(id), NoChoice) => w == DeleteStep(u, id)
         case (Event(id, signal), ActionEnds(fails)) => EventStep(spec, u, id, signal, fails, w)
         case (Tick, TakeOut(out)) => TickStep(spec, u, out, w)
         case (Read, NoChoice) => w == u
         case _ => false
  }

  function Start<R>(spec: Spec): View<R> {
    View(0, 0, map[], map s | s in spec.states :: map[], map[], [], [], map[], [], false)
  }

  ghost predicate IsRun<R>(spec: Spec, views: seq<View<R>>, moves: seq<Move<R>>) {
    && |views| == |moves| + 1
    && views[0] == Start(spec)
    && forall k :: 0 <= k < |moves| ==> Step(spec, views[k], moves[k], views[k + 1])
  }

  lemma StepKeepsInv<R>(spec: Spec, v: View<R>, move: Move<R>, w: View<R>)
    requires Inv(spec, v) && Step(spec, v, move, w)
    ensures Inv(spec, w)
  {
    match move
    case Submit(_) =>
      hide Exact, Named, AllOk, QueueOk, FiredOk;
    case Process(choice) =>
      var u := v.(txns := v.txns[1..]);
      assert Inv(spec, u) by {
        hide Exact, Named, AllOk, QueueOk, FiredOk;
      }
      hide Inv, AddStep, DeleteStep, EventStep, TickStep;
      match (v.txns[0], choice)
      case (Add(initial), AddAs(o)) => AddKeepsInv(spec, u, initial, o, w);
      case (Delete(id), NoChoice) => DeleteKeepsInv(spec, u, id);
      case (Event(id, signal), ActionEnds(fails)) => EventKeepsInv(spec, u, id, signal, fails, w);
      case (Tick, TakeOut(out)) => TickKeepsInv(spec, u, out, w);
      case (Read, NoChoice) =>
      case _ =>
  }

  /** Every state of every run satisfies the invariant. */
  lemma {:induction false} EveryRunKeepsInv<R>(spec: Spec, views: seq<View<R>>, moves: seq<Move<R>>, k: nat)
    requires Sound(spec) && IsRun(spec, views, moves) && k < |views|
    ensures Inv(spec, views[k])
    decreases k
  {
    hide Inv, Step;
    if k == 0 {
      StartKeepsInv<R>(spec);
    } else {
      EveryRunKeepsInv(spec, views, moves, k - 1);
      StepKeepsInv(spec, views[k - 1], moves[k - 1], views[k]);
    }
  }

  lemma StartKeepsInv<R>(spec: Spec)
    requires Sound(spec)
    ensures Inv<R>(spec, Start(spec))
  {
    hide Sound;
  }

  /** In every state of every run: known states, and the index by state is exact. */
  lemma EveryRunIndexesByState<R>(spec: Spec, views: seq<View<R>>, moves: seq<Move<R>>, k: nat, s: Index, id: ID)
    requires Sound(spec) && IsRun(spec, views, moves) && k < |views|
    ensures var v := views[k];
            && (id in v.members ==>
                  v.members[id] in v.insts && v.insts[v.members[id]].state in spec.states && id < v.next)
            && (s in v.bystate && id in v.bystate[s] <==>
                  s in spec.states && id in v.members && v.insts[v.members[id]].state == s)
            && (s in v.bystate && id in v.bystate[s] ==> v.bystate[s][id] == v.members[id])
  {
    EveryRunKeepsInv(spec, views, moves, k);
    hide QueueOk, FiredOk, IsRun;
    if s in views[k].bystate {
      assert RowExact(views[k].members, views[k].bystate[s], views[k].insts, s);
    }
  }

  lemma EventKeepsMembers<R>(spec: Spec, v: View<R>, id: ID, signal: Signal, actionFails: bool, w: View<R>)
    requires EventStep(spec, v, id, signal, actionFails, w)
    ensures w.owner == v.owner && w.members == v.members
  {
    hide Requeued, FlapCheck, Landing, Entered, VisitRaise, Raised, NextState, Linked, Unlinked, Keys, Below;
  }

  lemma NextIsUnowned<R>(spec: Spec, v: View<R>)
    requires Inv(spec, v)
    ensures v.next !in v.owner
  {
    hide Exact, AllOk, QueueOk, FiredOk, Sound;
  }

  lemma AddOwns<R>(spec: Spec, v: View<R>, initial: Index, o: R, w: View<R>)
    requires AddStep(spec, v, initial, o, w)
    ensures (w.owner == v.owner && w.members == v.members)
            || (w.owner == v.owner[v.next := o] && w.members == v.members[v.next := o])
  {
    hide Requeued, Entered, Linked;
  }

  lemma TickOwnsNothing<R>(spec: Spec, v: View<R>, out: seq<R>, w: View<R>)
    requires TickStep(spec, v, out, w)
    ensures w.owner == v.owner && w.members == v.members
  {
    hide Taken, Firings, Signals, Unarmed, Keys, Ordered;
  }

  lemma DeleteOwnsNothing<R>(v: View<R>, id: ID)
    ensures DeleteStep(v, id).owner == v.owner && DeleteStep(v, id).members.Keys <= v.members.Keys
  {
    hide Unlinked;
  }

  /** Steps only add owners, and only an id that had no owner becomes a member. */
  lemma StepKeepsOwners<R>(spec: Spec, v: View<R>, move: Move<R>, w: View<R>)
    requires Inv(spec, v) && Step(spec, v, move, w)
    ensures forall id :: id in v.owner ==> id in w.owner && w.owner[id] == v.owner[id]
    ensures forall id :: id in w.members && id !in v.members ==> id !in v.owner
  {
    hide Inv, EventStep, AddStep, TickStep, DeleteStep;
    NextIsUnowned(spec, v);
    if move.Process? {
      var u := v.(txns := v.txns[1..]);
      match v.txns[0] {
        case Add(initial) => AddOwns(spec, u, initial, move.choice.o, w);
        case Delete(id) => DeleteOwnsNothing(u, id);
        case Event(id, signal) => EventKeepsMembers(spec, u, id, signal, move.choice.fails, w);
        case Tick => TickOwnsNothing(spec, u, move.choice.out, w);
        case Read =>
      }
    }
  }

  lemma MemberOwns<R>(spec: Spec, v: View<R>, id: ID)
    requires Inv(spec, v) && id in v.members
    ensures id in v.owner && v.members[id] == v.owner[id]
  {
    hide Exact, AllOk, QueueOk, FiredOk, Sound;
  }

  /** An id that has been given out stays with its instance, and only leaves the members. */
  lemma {:induction false} OwnersStay<R>(spec: Spec, views: seq<View<R>>, moves: seq<Move<R>>, i: nat, j: nat, id: ID)
    requires Sound(spec) && IsRun(spec, views, moves) && i <= j < |views| && id in views[i].owner
    ensures id in views[j].owner && views[j].owner[id] == views[i].owner[id]
    ensures id in views[j].members ==> id in views[i].members
    decreases j - i
  {
    hide Inv, Step;
    if i < j {
      OwnersStay(spec, views, moves, i, j - 1, id);
      EveryRunKeepsInv(spec, views, moves, j - 1);
      StepKeepsOwners(spec, views[j - 1], moves[j - 1], views[j]);
    }
  }

  /** Once an id has left the members it never comes back, and while it is there it names one instance. */
  lemma EveryRunUsesIdsOnce<R>(spec: Spec, views: seq<View<R>>, moves: seq<Move<R>>, i: nat, j: nat, k: nat, id: ID)
    requires Sound(spec) && IsRun(spec, views, moves) && i <= j <= k < |views|
    requires id in views[i].members && id in views[k].members
    ensures id in views[j].members && views[i].members[id] == views[j].members[id] == views[k].members[id]
  {
    hide Inv, Step;
    EveryRunKeepsInv(spec, views, moves, i);
    EveryRunKeepsInv(spec, views, moves, j);
    EveryRunKeepsInv(spec, views, moves, k);
    MemberOwns(spec, views[i], id);
    OwnersStay(spec, views, moves, i, j, id);
    OwnersStay(spec, views, moves, i, k, id);
    OwnersStay(spec, views, moves, j, k, id);
    MemberOwns(spec, views[j], id);
    MemberOwns(spec, views[k], id);
  }

  // ---------- When the queue loses its order ----------

  /** The step gives the instance at the root of the queue a deadline later than one below it. */
  ghost predicate PostponesRoot<R>(v: View<R>, w: View<R>) {
    && v.queue != [] && v.queue[0] in v.insts && v.queue[0] in w.insts
    && w.insts[v.queue[0]].entries > v.insts[v.queue[0]].entries
    && !Below(Keys(w.insts, w.queue), 0)
  }

  lemma EnterPostpones<R>(spec: Spec, v: View<R>, id: ID, i: Inst, land: Index, w: View<R>)
    requires Known(v, id) && i.state in v.bystate && land in v.bystate && EnterStep(spec, v, id, i, land, w)
    requires i.entries == v.insts[v.members[id]].entries
    ensures PostponesRoot(v, w) <==> AtRoot(v, v.members[id]) && !Below(Keys(w.insts, w.queue), 0)
    ensures w.disordered <==> v.disordered || PostponesRoot(v, w)
    ensures Ordered(Keys(v.insts, v.queue)) ==> (Ordered(Keys(w.insts, w.queue)) <==> !PostponesRoot(v, w))
  {
    hide Ordered, Below, Keys, Linked, Unlinked, VisitRaise;
  }

  /** From an ordered queue, a signal leaves it unordered if and only if it postpones the root. */
  lemma EventDisordersExactly<R>(spec: Spec, v: View<R>, id: ID, signal: Signal, actionFails: bool, w: View<R>)
    requires EventStep(spec, v, id, signal, actionFails, w)
    ensures w.disordered <==> v.disordered || PostponesRoot(v, w)
    ensures Ordered(Keys(v.insts, v.queue)) ==> (!Ordered(Keys(w.insts, w.queue)) <==> PostponesRoot(v, w))
  {
    hide EnterStep, Ordered, Below, FlapCheck, NextState, Raised, Requeued;
    if Known(v, id) {
      var o := v.members[id];
      var i := v.insts[o];
      match NextState(spec, i.state, signal)
      case Failure(_) =>
      case Success((next, _)) =>
        var (h, flapping) := FlapCheck(spec, i, next);
        if flapping.Some? {
          SameKeys(v.insts, w.insts, v.queue);
        } else {
          EnterPostpones(spec, v, id, i.(history := h), Landing(spec, i.state, signal, actionFails).value, w);
        }
    }
  }

  lemma SameKeys<R>(insts: map<R, Inst>, insts': map<R, Inst>, q: seq<R>)
    requires insts.Keys == insts'.Keys && forall o <- insts :: insts[o].deadline == insts'[o].deadline
    ensures Keys(insts, q) == Keys(insts', q)
  {}

  lemma AddPostponesNothing<R>(spec: Spec, v: View<R>, initial: Index, o: R, w: View<R>)
    requires AddStep(spec, v, initial, o, w)
    ensures w.disordered == v.disordered && !PostponesRoot(v, w)
  {
    hide Requeued, Linked, Below, Keys;
  }

  lemma TickPostponesNothing<R>(spec: Spec, v: View<R>, out: seq<R>, w: View<R>)
    requires TickStep(spec, v, out, w)
    ensures w.disordered == v.disordered && !PostponesRoot(v, w)
  {
    hide Taken, Firings, Signals, Keys, Ordered, Below;
  }

  lemma DeletePostponesNothing<R>(v: View<R>, id: ID)
    ensures DeleteStep(v, id).disordered == v.disordered && !PostponesRoot(v, DeleteStep(v, id))
  {
    hide Unlinked, Below, Keys;
  }

  lemma FlagFollowsSteps<R>(spec: Spec, v: View<R>, move: Move<R>, w: View<R>)
    requires Step(spec, v, move, w)
    ensures w.disordered <==> v.disordered || PostponesRoot(v, w)
  {
    hide EventStep, AddStep, TickStep, DeleteStep, Below, Keys;
    if move.Process? {
      var u := v.(txns := v.txns[1..]);
      match v.txns[0] {
        case Add(initial) => AddPostponesNothing(spec, u, initial, move.choice.o, w);
        case Delete(id) => DeletePostponesNothing(u, id);
        case Event(id, signal) => EventDisordersExactly(spec, u, id, signal, move.choice.fails, w);
        case Tick => TickPostponesNothing(spec, u, move.choice.out, w);
        case Read =>
      }
    }
  }

  /** The flag is up exactly after a step that postponed the root. */
  lemma {:induction false} EveryRunFlags<R>(spec: Spec, views: seq<View<R>>, moves: seq<Move<R>>, k: nat)
    requires IsRun(spec, views, moves) && k < |views|
    ensures views[k].disordered <==> exists i :: 0 <= i < k && PostponesRoot(views[i], views[i + 1])
    decreases k
  {
    hide Step, PostponesRoot;
    if k > 0 {
      EveryRunFlags(spec, views, moves, k - 1);
      FlagFollowsSteps(spec, views[k - 1], moves[k - 1], views[k]);
    }
  }

  /** A run that never postpones the root is never late: no armed deadline is reached without its signal. */
  lemma RunsThatKeepTheRootAreNeverLate<R>(spec: Spec, views: seq<View<R>>, moves: seq<Move<R>>, k: nat, o: R)
    requires Sound(spec) && IsRun(spec, views, moves) && k < |views|
    requires forall i :: 0 <= i < k ==> !PostponesRoot(views[i], views[i + 1])
    requires o in views[k].insts && views[k].insts[o].deadline > 0
    ensures views[k].now < views[k].insts[o].deadline && o in views[k].queue
    ensures Ordered(Keys(views[k].insts, views[k].queue))
  {
    EveryRunFlags(spec, views, moves, k);
    EveryRunKeepsInv(spec, views, moves, k);
    hide Exact, Named, FiredOk, IsRun, PostponesRoot, Sound, Ordered, Keys;
  }

  // ---------- When a signal comes, and to whom it goes ----------

  /** In every run, whatever the heap order: a TTL signal is raised only after the instance has stayed its TTL in the
      state, and at most once for each stay. */
  lemma EveryRunSignalsInTime<R>(spec: Spec, views: seq<View<R>>, moves: seq<Move<R>>, k: nat)
    requires Sound(spec) && IsRun(spec, views, moves) && k < |views|
    ensures forall n :: 0 <= n < |views[k].fired| ==>
              var f := views[k].fired[n];
              && Ttl(spec, f.state) > 0 && f.at - f.start >= Ttl(spec, f.state)
              && f.inst in views[k].insts && f.entry <= views[k].insts[f.inst].entries
    ensures forall m, n :: 0 <= m < n < |views[k].fired| ==>
              views[k].fired[m].inst != views[k].fired[n].inst || views[k].fired[m].entry != views[k].fired[n].entry
  {
    EveryRunKeepsInv(spec, views, moves, k);
    hide Exact, Named, AllOk, QueueOk, IsRun, Sound, Ordered, Keys;
    forall n | 0 <= n < |views[k].fired|
      ensures FiringOk(spec, views[k].insts, views[k].fired[n])
    {
    }
  }

  /** The next transaction deletes the instance. */
  ghost predicate Deletes<R>(v: View<R>, move: Move<R>, o: R) {
    && move.Process? && v.txns != [] && v.txns[0].Delete?
    && v.txns[0].id in v.members && v.members[v.txns[0].id] == o
  }

  ghost predicate Gone<R>(v: View<R>, o: R) {
    o in v.insts && v.insts[o].born !in v.members
  }

  lemma AddLosesNone<R>(spec: Spec, v: View<R>, initial: Index, o: R, w: View<R>, x: R)
    requires Named(v.members, v.insts, v.owner, v.next) && AddStep(spec, v, initial, o, w)
    ensures Gone(w, x) <==> Gone(v, x)
  {
    hide Requeued, Linked;
  }

  lemma TickLosesNone<R>(spec: Spec, v: View<R>, out: seq<R>, w: View<R>, x: R)
    requires TickStep(spec, v, out, w)
    ensures Gone(w, x) <==> Gone(v, x)
  {
    hide Taken, Firings, Signals, Keys, Ordered;
  }

  lemma EventLosesNone<R>(spec: Spec, v: View<R>, id: ID, signal: Signal, actionFails: bool, w: View<R>, x: R)
    requires EventStep(spec, v, id, signal, actionFails, w)
    ensures Gone(w, x) <==> Gone(v, x)
  {
    hide Requeued, FlapCheck, Landing, VisitRaise, Raised, NextState, Linked, Unlinked, Keys, Below;
  }

  lemma DeleteLosesOne<R>(v: View<R>, id: ID, x: R)
    requires Exact(v.members, v.bystate, v.insts) && Named(v.members, v.insts, v.owner, v.next)
    ensures Gone(DeleteStep(v, id), x) <==> Gone(v, x) || (id in v.members && v.members[id] == x)
  {
    hide Unlinked, RowExact;
  }

  lemma StepLoses<R>(spec: Spec, v: View<R>, move: Move<R>, w: View<R>, x: R)
    requires Inv(spec, v) && Step(spec, v, move, w)
    ensures Gone(w, x) <==> Gone(v, x) || Deletes(v, move, x)
  {
    hide EventStep, AddStep, TickStep, DeleteStep, Exact, Named, AllOk, QueueOk, FiredOk, Ordered, Keys;
    if move.Process? {
      var u := v.(txns := v.txns[1..]);
      match v.txns[0] {
        case Add(initial) => AddLosesNone(spec, u, initial, move.choice.o, w, x);
        case Delete(id) => DeleteLosesOne(u, id, x);
        case Event(id, signal) => EventLosesNone(spec, u, id, signal, move.choice.fails, w, x);
        case Tick => TickLosesNone(spec, u, move.choice.out, w, x);
        case Read =>
      }
    }
  }

  /** Instances leave the members by deletion and in no other way. */
  lemma {:induction false} EveryRunLosesTheDeleted<R>(spec: Spec, views: seq<View<R>>, moves: seq<Move<R>>, k: nat,
                                                      x: R)
    requires Sound(spec) && IsRun(spec, views, moves) && k < |views|
    ensures Gone(views[k], x) <==> exists i :: 0 <= i < k && Deletes(views[i], moves[i], x)
    decreases k
  {
    hide Inv, Step, Deletes;
    if k > 0 {
      EveryRunLosesTheDeleted(spec, views, moves, k - 1, x);
      EveryRunKeepsInv(spec, views, moves, k - 1);
      StepLoses(spec, views[k - 1], moves[k - 1], views[k], x);
    }
  }

  lemma EventFiresNone<R>(spec: Spec, v: View<R>, id: ID, signal: Signal, actionFails: bool, w: View<R>)
    requires EventStep(spec, v, id, signal, actionFails, w)
    ensures w.fired == v.fired
  {
    hide Requeued, FlapCheck, Landing, Entered, VisitRaise, Raised, NextState, Linked, Unlinked, Keys, Below;
  }

  lemma AddFiresNone<R>(spec: Spec, v: View<R>, initial: Index, o: R, w: View<R>)
    requires AddStep(spec, v, initial, o, w)
    ensures w.fired == v.fired
  {
    hide Requeued, Entered, Linked;
  }

  lemma {:induction false} FiringHasItsId<R>(spec: Spec, insts: map<R, Inst>, out: seq<R>, now: Time, k: nat)
    requires k < |Firings(spec, insts, out, now)|
    ensures var f := Firings(spec, insts, out, now)[k]; f.inst in insts && f.target == insts[f.inst].id
  {
    var rest := out[..|out| - 1];
    if k < |Firings(spec, insts, rest, now)| {
      FiringHasItsId(spec, insts, rest, now, k);
    }
  }

  /** A tick adds to the signals, each under the id its instance has at that moment. */
  lemma TickFires<R>(spec: Spec, v: View<R>, out: seq<R>, w: View<R>, n: nat)
    requires TickStep(spec, v, out, w)
    ensures v.fired <= w.fired
    ensures |v.fired| <= n < |w.fired| ==>
              w.fired[n].inst in v.insts && w.fired[n].target == v.insts[w.fired[n].inst].id
  {
    hide Keys, Ordered, Signals, Unarmed, Taken;
    var fs := Firings(spec, v.insts, out, v.now + 1);
    assert w.fired == v.fired + fs;
    if |v.fired| <= n < |w.fired| {
      FiringHasItsId(spec, v.insts, out, v.now + 1, n - |v.fired|);
    }
  }

  lemma StepFires<R>(spec: Spec, v: View<R>, move: Move<R>, w: View<R>, n: nat)
    requires Step(spec, v, move, w)
    ensures v.fired <= w.fired
    ensures |v.fired| <= n < |w.fired| ==>
              w.fired[n].inst in v.insts && w.fired[n].target == v.insts[w.fired[n].inst].id
  {
    hide EventStep, AddStep, TickStep, Linked, Unlinked;
    if move.Process? {
      var u := v.(txns := v.txns[1..]);
      match v.txns[0] {
        case Add(initial) => AddFiresNone(spec, u, initial, move.choice.o, w);
        case Delete(id) =>
        case Event(id, signal) => EventFiresNone(spec, u, id, signal, move.choice.fails, w);
        case Tick => TickFires(spec, u, move.choice.out, w, n);
        case Read =>
      }
    }
  }

  lemma IdExactly<R>(spec: Spec, v: View<R>, o: R)
    requires Inv(spec, v) && o in v.insts
    ensures v.insts[o].id == if Gone(v, o) then 0 else v.insts[o].born
  {
    hide Exact, AllOk, QueueOk, FiredOk, Sound, Ordered, Keys;
  }

  /** Each signal was raised by one step of the run. */
  lemma {:induction false} EverySignalHasAStep<R>(spec: Spec, views: seq<View<R>>, moves: seq<Move<R>>, k: nat, n: nat)
    returns (j: nat)
    requires IsRun(spec, views, moves) && k < |views| && n < |views[k].fired|
    ensures j < k && |views[j].fired| <= n < |views[j + 1].fired| && views[j + 1].fired[n] == views[k].fired[n]
    decreases k
  {
    hide Step;
    if k == 0 {
      assert false;
    }
    StepFires(spec, views[k - 1], moves[k - 1], views[k], n);
    if n < |views[k - 1].fired| {
      j := EverySignalHasAStep(spec, views, moves, k - 1, n);
    } else {
      j := k - 1;
    }
  }

  /** In every run, a signal goes to the id its instance was born with if and only if no step before had deleted that
      instance, or that id is 0; otherwise it goes to id 0. */
  lemma EverySignalAddressedExactly<R>(spec: Spec, views: seq<View<R>>, moves: seq<Move<R>>, j: nat, n: nat)
    requires Sound(spec) && IsRun(spec, views, moves) && j < |moves| && |views[j].fired| <= n < |views[j + 1].fired|
    ensures var f := views[j + 1].fired[n];
            && f.inst in views[j].insts
            && var born := views[j].insts[f.inst].born;
               var deleted := exists i :: 0 <= i < j && Deletes(views[i], moves[i], f.inst);
               && f.target == (if deleted then 0 else born)
               && (f.target == born <==> born == 0 || !deleted)
  {
    hide Inv, Step, Deletes, Gone;
    StepFires(spec, views[j], moves[j], views[j + 1], n);
    var o := views[j + 1].fired[n].inst;
    EveryRunKeepsInv(spec, views, moves, j);
    EveryRunLosesTheDeleted(spec, views, moves, j, o);
    IdExactly(spec, views[j], o);
  }
}
