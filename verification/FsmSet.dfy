/**
 The transaction handlers of a set of state machine instances (pkg/fsm/set.go), each proved to take the step
 that module FsmRuns describes. The transactions channel is an unbounded queue; reply channels, logging and
 error reports have no effect on the state.
 */
module FsmSet {
  import opened Wrappers
  import opened FsmSpec
  import opened Heap
  import opened DeadlineQueue
  import opened FsmRuns
  import FlapHistory

  /** The object's fields hold this value. */
  ghost predicate Holds(o: Instance, i: Inst)
    reads o`id, o`state, o`start, o`deadline, o`visits, o`entries, o.flaps
  {
    && o.id == i.id && o.born == i.born && o.state == i.state && o.start == i.start && o.deadline == i.deadline
    && o.visits == i.visits && o.entries == i.entries && o.flaps.history == i.history && o.flaps.key == o.born
  }

  ghost predicate AllHold(insts: map<Instance, Inst>)
    reads insts.Keys`id, insts.Keys`state, insts.Keys`start, insts.Keys`deadline, insts.Keys`visits, insts.Keys`entries
    reads set o | o in insts :: o.flaps
  {
    forall o :: o in insts ==> Holds(o, insts[o])
  }

  class Set {
    const spec: Spec
    var now: Time
    var next: ID
    var members: map<ID, Instance>
    var bystate: map<Index, map<ID, Instance>>
    const deadlines: Queue
    var transactions: seq<Txn>
    ghost var view: View<Instance>     // the set as a value

    ghost predicate Valid()
      reads this, deadlines, deadlines.pq, view.insts.Keys, set o | o in view.insts :: o.flaps
    {
      && now == view.now && next == view.next && members == view.members && bystate == view.bystate
      && deadlines.pq == view.queue && transactions == view.txns
      && AllHold(view.insts)
      && deadlines.Tracks(view.insts.Keys)
      && Inv(spec, view)
    }

    constructor (spec: Spec)
      requires Sound(spec)
      ensures Valid() && this.spec == spec && view == Start(spec) && fresh(deadlines)
    {
      this.spec := spec;
      now, next, members := 0, 0, map[];
      bystate := map i | i in spec.states :: map[];
      deadlines := new Queue();
      transactions := [];
      view := Start(spec);
    }

    /** Moves an instance whose deadline has just been set into, within or out of the queue. */
    method Place(inst: Instance, ghost all: set<Instance>)
      requires deadlines.Tracks(all) && inst in all
      modifies deadlines, Entries(deadlines.pq)`index, inst`index
      ensures deadlines.Tracks(all)
      ensures Entries(deadlines.pq) == (if inst.deadline > 0 then old(Entries(deadlines.pq)) + {inst}
                                        else if old(inst.index) == 0 then old(Entries(deadlines.pq))
                                        else old(Entries(deadlines.pq)) - {inst})
      ensures old(inst.index) == 0 ==> deadlines.pq == old(deadlines.pq)
      ensures old(inst.index == -1 && deadlines.InOrder()) ==> deadlines.InOrder()
      ensures old(inst.index > 0 && OrderedAround(Deadlines(deadlines.pq), inst.index)) ==> deadlines.InOrder()
    {
      if inst.index > -1 {
        if inst.deadline > 0 {
          deadlines.Update(inst, all);
        } else {
          deadlines.Remove(inst, all);
        }
      } else if inst.deadline > 0 {
        deadlines.Enqueue(inst, all);
      }
    }

    method Requeue(inst: Instance, ghost v: View<Instance>, ghost n: Inst)
      requires deadlines.pq == v.queue && deadlines.Tracks(v.insts.Keys + {inst}) && Entries(v.queue) <= v.insts.Keys
      requires forall o :: o in v.insts[inst := n] ==> o.deadline == v.insts[inst := n][o].deadline
      modifies deadlines, Entries(deadlines.pq)`index, inst`index
      ensures deadlines.Tracks(v.insts.Keys + {inst}) && Requeued(v, inst, n, deadlines.pq)
    {
      hide Deadlines, Ordered, OrderedAround, Below;
      ghost var insts, all := v.insts[inst := n], v.insts.Keys + {inst};
      ghost var d := Keys(v.insts, v.queue);
      IndexedHasNoDup(deadlines);
      ReplacedKeys(v.insts, v.queue, inst, n);
      KeysAreDeadlines(insts, v.queue);
      assert inst in insts && insts.Keys == all;
      hide Keys;
      if inst.index > -1 && Ordered(d) {
        ChangedSlot(d, inst.index, n.deadline);
        ChangedRoot(d, n.deadline);
      }
      Place(inst, all);
      IndexedHasNoDup(deadlines);
      KeysAreDeadlines(insts, deadlines.pq);
    }

    /** Enters a state: new times and visits, and the queue follows the new deadline. */
    method ProcessDeadline(inst: Instance, state: Index, ghost v: View<Instance>, ghost i: Inst)
      returns (r: Result<(), Error>)
      requires now == v.now && deadlines.pq == v.queue && Entries(v.queue) <= v.insts.Keys
      requires AllHold(v.insts[inst := i]) && deadlines.Tracks(v.insts.Keys + {inst})
      modifies deadlines, Entries(deadlines.pq)`index
      modifies inst`state, inst`start, inst`deadline, inst`visits, inst`entries, inst`index
      ensures r.Failure? <==> state !in spec.states
      ensures r.Failure? ==>
                deadlines.pq == v.queue && AllHold(v.insts[inst := i]) && deadlines.Tracks(v.insts.Keys + {inst})
      ensures r.Success? ==>
        var n := Entered(spec, i, state, now);
        && AllHold(v.insts[inst := n]) && deadlines.Tracks(v.insts.Keys + {inst}) && Requeued(v, inst, n, deadlines.pq)
    {
      hide AllHold, Queue.Tracks, Requeued, Entered;
      var ttl := 0;
      var expiry := ExpiryOf(spec, state);
      if expiry.Failure? {
        return Failure(expiry.error);
      } else if expiry.value.Some? {
        ttl := expiry.value.value.ttl;
      }
      EnterFields(inst, state, ttl, v.insts, i);
      Requeue(inst, v, Entered(spec, i, state, now));
      r := Success(());
    }

    method EnterFields(inst: Instance, state: Index, ttl: int, ghost insts: map<Instance, Inst>, ghost i: Inst)
      requires AllHold(insts[inst := i]) && ttl == Ttl(spec, state)
      modifies inst`state, inst`start, inst`deadline, inst`visits, inst`entries
      ensures AllHold(insts[inst := Entered(spec, i, state, now)])
      ensures forall o :: o in insts[inst := i] ==>
                o.deadline == insts[inst := Entered(spec, i, state, now)][o].deadline
    {
      ghost var n := Entered(spec, i, state, now);
      assert Holds(inst, insts[inst := i][inst]);
      inst.Update(state, now, ttl);
      ghost var after := insts[inst := n];
      forall o | o in after
        ensures Holds(o, after[o])
      {
        assert old(Holds(o, insts[inst := i][o]));
      }
    }

    /** A new instance, not yet a member. */
    method Create(id: ID, initial: Index) returns (inst: Instance)
      requires AllHold(view.insts) && deadlines.Tracks(view.insts.Keys)
      ensures fresh(inst) && fresh(inst.flaps)
      ensures AllHold(view.insts[inst := NewInst(id, initial)]) && deadlines.Tracks(view.insts.Keys + {inst})
    {
      inst := new Instance(id, initial);
      ghost var after := view.insts[inst := NewInst(id, initial)];
      forall o | o in after
        ensures Holds(o, after[o])
      {
        assert o != inst ==> old(Holds(o, view.insts[o]));
      }
    }

    method HandleAdd(initial: Index) returns (r: Result<ID, Error>, ghost inst: Instance)
      requires Valid()
      modifies this, deadlines, Entries(deadlines.pq)`index
      ensures Valid() && fresh(inst) && fresh(inst.flaps) && AddStep(spec, old(view), initial, inst, view)
      ensures r.Failure? <==> initial !in spec.states
      ensures r.Success? ==> r.value == old(next)
    {
      hide Inv, Queue.Tracks, AllHold, Requeued, Entered, NewInst;
      QueueFacts(spec, view);
      var id := next;
      var new_ := Create(id, initial);
      inst := new_;
      var p := ProcessDeadline(new_, initial, view, NewInst(id, initial));
      if p.Failure? {
        Dropped(deadlines, view.insts, inst, NewInst(id, initial));
        AddKeepsInv(spec, view, initial, inst, view.(next := id + 1));
        next := id + 1;
        view := view.(next := next);
        r := Failure(p.error);
      } else {
        Enlist(id, initial, new_);
        r := Success(id);
      }
    }

    /** Makes a new instance, already in its first state, a member. */
    method Enlist(id: ID, initial: Index, inst: Instance)
      requires id == next == view.next && initial in spec.states && inst !in view.insts
      requires now == view.now && members == view.members && bystate == view.bystate && transactions == view.txns
      requires var n := Entered(spec, NewInst(id, initial), initial, now);
               AllHold(view.insts[inst := n]) && Requeued(view, inst, n, deadlines.pq)
      requires deadlines.Tracks(view.insts.Keys + {inst}) && Inv(spec, view)
      modifies this
      ensures Valid() && AddStep(spec, old(view), initial, inst, view)
    {
      hide Inv, Queue.Tracks, AllHold, Requeued, Entered, NewInst;
      QueueFacts(spec, view);
      next := next + 1;
      members := members[id := inst];
      bystate := Linked(bystate, initial, id, inst);
      view := Added(spec, view, initial, inst, deadlines.pq);
      assert view.insts.Keys == old(view.insts.Keys) + {inst};
      AddKeepsInv(spec, old(view), initial, inst, view);
    }

    /** Puts a known signal at the end of the transactions. */
    method Raise(id: ID, signal: Signal)
      modifies this`transactions
      ensures transactions == old(transactions) + Raised(spec, id, signal)
    {
      if signal in spec.signals {
        transactions := transactions + [Event(id, signal)];
      }
    }

    /** Records the transition where a flap limit is set, and tells which signal the limit raises, if any. */
    method RecordFlap(inst: Instance, next: Index, ghost insts: map<Instance, Inst>)
      returns (flapping: Option<Signal>, ghost h: seq<Index>)
      requires AllHold(insts) && inst in insts && |insts[inst].history| != 1
      requires forall o :: o in insts && o != inst ==> insts[o].born != insts[inst].born
      modifies inst.flaps
      ensures (h, flapping) == FlapCheck(spec, insts[inst], next)
      ensures FlapHistory.Alternating(insts[inst].history) ==> FlapHistory.Alternating(h)
      ensures AllHold(insts[inst := insts[inst].(history := h)])
    {
      assert Holds(inst, insts[inst]);
      h := inst.flaps.history;
      flapping := None;
      var limit := FlapRule(spec, inst.state, next);
      if limit.Some? && limit.value.count > 0 {
        inst.flaps.Record(inst.state, next);
        h := inst.flaps.history;
        var flaps := inst.flaps.Count(inst.state, next);
        if flaps >= limit.value.count {
          flapping := Some(limit.value.raise);
        }
      }
      ghost var after := insts[inst := insts[inst].(history := h)];
      forall o | o in after
        ensures Holds(o, after[o])
      {
        assert old(Holds(o, insts[o]));
      }
    }

    method ProcessVisitLimit(inst: Instance, ghost n: Inst)
      requires Holds(inst, n)
      modifies this`transactions
      ensures transactions == old(transactions) + VisitRaise(spec, n)
    {
      var limit := VisitLimitOf(spec, inst.state);
      if limit.Success? && limit.value.Some? {
        var visits := if inst.state in inst.visits then inst.visits[inst.state] else 0;
        if visits == limit.value.value.value {
          Raise(inst.id, limit.value.value.raise);
        }
      }
    }

    /** Everything but the queue and the instances is as the view says. */
    ghost predicate FieldsShown()
      reads this
    {
      now == view.now && next == view.next && members == view.members && bystate == view.bystate
          && transactions == view.txns
    }

    /** Enters the state a signal leads to, after any action has run. */
    method Transit(id: ID, inst: Instance, land: Index, ghost i: Inst)
      requires Inv(spec, view) && Known(view, id) && view.members[id] == inst && land in spec.states
      requires FieldsShown() && deadlines.pq == view.queue && deadlines.Tracks(view.insts.Keys)
               && AllHold(view.insts[inst := i])
      requires i == view.insts[inst].(history := i.history) && FlapHistory.Alternating(i.history)
      modifies this, deadlines, Entries(deadlines.pq)`index
      modifies inst`state, inst`start, inst`deadline, inst`visits, inst`entries, inst`index
      ensures Valid() && Known(old(view), id) && EnterStep(spec, old(view), id, i, land, view)
    {
      hide Inv, Queue.Tracks, AllHold, Requeued, Entered, VisitRaise;
      QueueFacts(spec, view);
      assert view.insts.Keys + {inst} == view.insts.Keys;
      HoldsAt(view.insts[inst := i], inst);
      var current := inst.state;
      var _ := ProcessDeadline(inst, land, view, i);
      Relink(id, inst, current, land, i);
    }

    /** Moves a member, already in its new state, to that state's row of the index, and checks the visit limit. */
    method Relink(id: ID, inst: Instance, current: Index, land: Index, ghost i: Inst)
      requires Inv(spec, view) && Known(view, id) && view.members[id] == inst && land in spec.states && FieldsShown()
      requires i == view.insts[inst].(history := i.history) && FlapHistory.Alternating(i.history) && current == i.state
      requires var n := Entered(spec, i, land, now);
               AllHold(view.insts[inst := n]) && Requeued(view, inst, n, deadlines.pq)
      requires deadlines.Tracks(view.insts.Keys)
      modifies this
      ensures Valid() && Known(old(view), id) && EnterStep(spec, old(view), id, i, land, view)
    {
      hide Inv, Queue.Tracks, AllHold, Requeued, Entered, VisitRaise;
      QueueFacts(spec, view);
      MemberFacts(spec, view, id);
      ghost var n := Entered(spec, i, land, now);
      HoldsAt(view.insts[inst := n], inst);
      bystate := Linked(Unlinked(bystate, current, id), land, id, inst);
      ProcessVisitLimit(inst, n);
      view := MovedMember(spec, view, id, current, n, deadlines.pq);
      assert view.insts.Keys == old(view.insts.Keys);
      EnterKeepsInv(spec, old(view), id, i, land, view);
    }

    /** A signal for an instance; actionFails tells how the action, if there is one, ends. */
    method HandleEvent(id: ID, signal: Signal, actionFails: bool) returns (r: Result<(), Error>)
      requires Valid()
      modifies this, deadlines, view.insts.Keys, set o | o in view.insts :: o.flaps
      ensures Valid() && EventStep(spec, old(view), id, signal, actionFails, view)
      ensures r.Failure? <==> id !in old(members) || NextState(spec, old(members[id].state), signal).Failure?
    {
      hide Inv, Sound, Queue.Tracks, AllHold, Requeued, EnterStep, FlapCheck, NextState, ErrorTarget;
      if id !in members {
        return Failure(UnknownFSM(id));
      }
      MemberFacts(spec, view, id);
      QueueFacts(spec, view);
      var inst := members[id];
      HoldsAt(view.insts, inst);
      var current := inst.state;
      var t := NextState(spec, current, signal);
      if t.Failure? {
        return Failure(t.error);
      }
      BornUnique(spec, view, inst);
      ghost var i := view.insts[inst];
      var flapping, h := RecordFlap(inst, t.value.0, view.insts);
      if flapping.Some? {
        StopFlapping(id, inst, flapping.value, h);
        return Success(());
      }
      var next := t.value.0;
      if t.value.1 && actionFails {
        var alternate := ErrorTarget(spec, current, signal);
        if alternate.Success? {
          next := alternate.value;
        }
      }
      assert Landing(spec, current, signal, actionFails) == Success(next);
      Transit(id, inst, next, i.(history := h));
      r := Success(());
    }

    /** The flap limit is reached: its signal is raised and the state stays. */
    method StopFlapping(id: ID, inst: Instance, signal: Signal, ghost h: seq<Index>)
      requires Inv(spec, view) && Known(view, id) && view.members[id] == inst && FlapHistory.Alternating(h)
      requires FieldsShown() && deadlines.pq == view.queue && deadlines.Tracks(view.insts.Keys)
      requires AllHold(view.insts[inst := view.insts[inst].(history := h)])
      modifies this
      ensures Valid()
      ensures view == old(view).(insts := old(view.insts[inst := view.insts[inst].(history := h)]),
                                 txns := old(view.txns) + Raised(spec, old(view.insts[inst].id), signal))
    {
      hide Inv, Queue.Tracks, AllHold;
      ghost var n := view.insts[inst].(history := h);
      HoldsAt(view.insts[inst := n], inst);
      Raise(inst.id, signal);
      FlapKeepsInv(spec, view, id, h, transactions);
      view := view.(insts := view.insts[inst := n], txns := transactions);
      assert view.insts.Keys == old(view.insts.Keys);
    }

    /** In the middle of a tick: the instances in out have left the queue and lost their deadlines. */
    ghost predicate Ticking(v: View<Instance>, out: seq<Instance>)
      reads this, deadlines, deadlines.pq, v.insts.Keys, set o | o in v.insts :: o.flaps
    {
      && now == v.now + 1
      && deadlines.Tracks(v.insts.Keys)
      && AllHold(Unarmed(v.insts, Entries(out)))
      && Taken(v, out, deadlines.pq, now)
      && (Ordered(Keys(v.insts, v.queue)) ==> deadlines.InOrder())
      && transactions == v.txns + Signals(spec, Firings(spec, v.insts, out, now))
    }

    method HandleClockTick() returns (ghost out: seq<Instance>)
      requires Valid()
      modifies this, deadlines, view.insts.Keys
      ensures Valid() && TickStep(spec, old(view), out, view)
    {
      hide Inv, Queue.Tracks, AllHold, Taken, Ticking, TickStep;
      now := now + 1;
      out := [];

      TickStarts();
      while |deadlines.pq| > 0
        invariant Ticking(old(view), out) && view == old(view)
        invariant next == view.next && members == view.members && bystate == view.bystate
        decreases |deadlines.pq|
      {
        var instance := deadlines.Peek();
        if instance.value.deadline > now {
          break;
        }
        out := TakeRoot(out);
      }
      EndTick(out);
    }

    lemma TickStarts()
      requires now == view.now + 1 && transactions == view.txns && deadlines.pq == view.queue && Inv(spec, view)
      requires AllHold(view.insts) && deadlines.Tracks(view.insts.Keys)
      ensures Ticking(view, [])
    {
      hide Inv, Queue.Tracks;
      QueueFacts(spec, view);
      assert Unarmed(view.insts, Entries<Instance>([])) == view.insts;
      forall o | o in view.insts
        ensures o.deadline == view.insts[o].deadline
      {
        assert Holds(o, view.insts[o]);
      }
      KeysAreDeadlines(view.insts, view.queue);
    }

    /** The loop has ended: the view catches up. */
    method EndTick(ghost out: seq<Instance>)
      requires Ticking(view, out) && Inv(spec, view) && next == view.next && members == view.members
               && bystate == view.bystate
      requires deadlines.pq == [] || deadlines.pq[0].deadline > now
      modifies this`view
      ensures Valid() && TickStep(spec, old(view), out, view)
    {
      hide Inv, Queue.Tracks, Taken, AllHold, Keys, Unarmed;
      TracksHasNoDup(deadlines, view.insts.Keys);
      QueueFacts(spec, view);
      LeftOver(view, out, deadlines.pq, now);
      UnarmedKeys(view.insts, Entries(out));
      TickKeepsInv(spec, view, out, Ticked(spec, view, out, deadlines.pq));
      view := Ticked(spec, view, out, deadlines.pq);
      assert view.insts.Keys == old(view.insts.Keys);
    }

    /** The root is due: it leaves the queue, and its signal is raised if its deadline was still armed. */
    method TakeRoot(ghost out: seq<Instance>) returns (ghost more: seq<Instance>)
      requires Ticking(view, out) && deadlines.pq != [] && deadlines.pq[0].deadline <= now && Inv(spec, view)
      modifies this`transactions, deadlines, view.insts.Keys`index, view.insts.Keys`deadline
      ensures Ticking(view, more) && |deadlines.pq| == old(|deadlines.pq|) - 1
    {
      hide Inv, Queue.Tracks, Queue.InOrder, AllHold, Taken, Signals, Firings, Ordered, Keys;
      TickFacts(spec, view, out, deadlines.pq, now);
      ghost var insts := Unarmed(view.insts, Entries(out));
      var inst := PopRoot(out, insts);
      more := out + [inst];
      SignalsOfOneMore(spec, view.insts, out, inst, now);
      RaiseExpiry(inst, view.insts[inst]);
      Disarm(inst, insts);
      UnarmedOneMore(view.insts, out, inst);
    }

    method PopRoot(ghost out: seq<Instance>, ghost insts: map<Instance, Inst>) returns (inst: Instance)
      requires deadlines.pq != [] && deadlines.Tracks(view.insts.Keys) && Taken(view, out, deadlines.pq, now)
      requires AllHold(insts) && insts == Unarmed(view.insts, Entries(out))
      requires deadlines.pq[0] in view.insts && deadlines.pq[0] !in out && deadlines.pq[0].deadline <= now
      modifies deadlines, view.insts.Keys`index
      ensures inst == old(deadlines.pq[0]) && |deadlines.pq| == old(|deadlines.pq|) - 1 && inst !in deadlines.pq
      ensures deadlines.Tracks(view.insts.Keys) && Taken(view, out + [inst], deadlines.pq, now)
      ensures AllHold(insts) && inst in insts && Holds(inst, view.insts[inst])
      ensures old(deadlines.InOrder()) ==> deadlines.InOrder()
    {
      hide AllHold, Queue.InOrder;
      inst := deadlines.Dequeue(view.insts.Keys);
      HoldsAt(insts, inst);
    }

    method RaiseExpiry(inst: Instance, ghost i: Inst)
      requires Holds(inst, i) && i.state in spec.states
      modifies this`transactions
      ensures transactions == old(transactions) +
                if i.deadline > 0 && Ttl(spec, i.state) > 0
                then Raised(spec, i.id, spec.states[i.state].ttl.raise) else []
    {
      if inst.deadline > 0 {
        var expiry := ExpiryOf(spec, inst.state);
        if expiry.value.Some? {
          Raise(inst.id, expiry.value.value.raise);
        }
      }
    }

    static method Disarm(inst: Instance, ghost insts: map<Instance, Inst>)
      requires AllHold(insts) && inst in insts
      modifies inst`deadline
      ensures AllHold(insts[inst := insts[inst].(deadline := -1)])
    {
      inst.deadline := -1;
      ghost var after := insts[inst := insts[inst].(deadline := -1)];
      forall o | o in after
        ensures Holds(o, after[o])
      {
        assert old(Holds(o, insts[o]));
      }
    }

    /** Deletion zeroes the id field, for safety. */
    static method ZeroId(inst: Instance, ghost insts: map<Instance, Inst>)
      requires AllHold(insts) && inst in insts
      modifies inst`id
      ensures AllHold(insts[inst := insts[inst].(id := 0)])
    {
      inst.id := 0;
      forall o | o in insts
        ensures Holds(o, insts[inst := insts[inst].(id := 0)][o])
      {
        assert old(Holds(o, insts[o]));
      }
    }

    method HandleDelete(id: ID) returns (r: Result<(), Error>)
      requires Valid()
      modifies this, view.insts.Keys`id
      ensures Valid() && view == DeleteStep(old(view), id)
      ensures r.Failure? <==> id !in old(members)
    {
      hide Inv, InstOk, Queue.Tracks, AllHold;
      if id !in members {
        return Failure(UnknownFSM(id));
      }
      MemberFacts(spec, view, id);
      DeleteKeepsInv(spec, view, id);
      var inst := members[id];
      HoldsAt(view.insts, inst);
      ZeroId(inst, view.insts);
      members := members - {id};
      bystate := bystate[inst.state := bystate[inst.state] - {id}];
      view := DeleteStep(view, id);
      assert view.insts.Keys == old(view.insts.Keys);
      r := Success(());
    }

    method SubmitTxn(txn: Txn)
      requires Valid()
      modifies this`transactions, this`view
      ensures Valid() && Step(spec, old(view), Submit(txn), view) && view.insts == old(view.insts)
    {
      hide Inv, Queue.Tracks, AllHold;
      transactions := transactions + [txn];
      TxnsDoNotMatter(spec, view, transactions);
      view := view.(txns := transactions);
    }

    /** One turn of the transaction loop. */
    method ProcessNext(actionFails: bool) returns (ghost choice: Choice<Instance>)
      requires Valid() && transactions != []
      modifies this, deadlines, view.insts.Keys, set o | o in view.insts :: o.flaps
      ensures Valid() && Step(spec, old(view), Process(choice), view)
      ensures forall o :: o in view.insts && o !in old(view.insts) ==> fresh(o) && fresh(o.flaps)
    {
      hide Inv, Queue.Tracks, AllHold, AddStep, DeleteStep, EventStep, TickStep;
      var txn := transactions[0];
      transactions := transactions[1..];
      TxnsDoNotMatter(spec, view, transactions);
      view := view.(txns := transactions);
      choice := NoChoice;
      ghost var v := view;
      QueueFacts(spec, v);
      match txn {
        case Tick =>
          ghost var out := HandleClockTick();
          TickKeepsInsts(spec, v, out, view);
          choice := TakeOut(out);
        case Add(initial) =>
          var r, inst := HandleAdd(initial);
          AddAddsOne(spec, v, initial, inst, view);
          choice := AddAs(inst);
        case Delete(id) =>
          var _ := HandleDelete(id);
          DeleteKeepsInsts(v, id);
        case Event(id, signal) =>
          var _ := HandleEvent(id, signal, actionFails);
          EventKeepsInsts(spec, v, id, signal, actionFails, view);
          choice := ActionEnds(actionFails);
        case Read =>
      }
    }
  }

  lemma HoldsAt(insts: map<Instance, Inst>, o: Instance)
    requires AllHold(insts) && o in insts
    ensures Holds(o, insts[o])
  {
  }

  lemma KeysAreDeadlines(insts: map<Instance, Inst>, q: seq<Instance>)
    requires Entries(q) <= insts.Keys && forall o :: o in insts ==> o.deadline == insts[o].deadline
    ensures Keys(insts, q) == Deadlines(q)
  {
    assert forall o :: o in q ==> o in Entries(q);
  }

  lemma IndexedHasNoDup(q: Queue)
    requires q.Indexed()
    ensures NoDup(q.pq)
  {
  }

  lemma TracksExactly(q: Queue, all: set<Instance>)
    requires q.Tracks(all)
    ensures forall o :: o in all ==> (o.index > -1 <==> o in q.pq)
    ensures forall i :: 0 <= i < |q.pq| ==> q.pq[i].index == i
  {
  }

  lemma TracksHasNoDup(q: Queue, all: set<Instance>)
    requires q.Tracks(all)
    ensures NoDup(q.pq)
  {
  }

  lemma ReplacedKeys(insts: map<Instance, Inst>, q: seq<Instance>, o: Instance, n: Inst)
    requires NoDup(q) && Entries(q) <= insts.Keys
    ensures o !in q ==> Keys(insts[o := n], q) == Keys(insts, q)
    ensures forall k :: 0 <= k < |q| && q[k] == o ==> Keys(insts[o := n], q) == Keys(insts, q)[k := n.deadline]
  {
  }

  lemma Dropped(q: Queue, insts: map<Instance, Inst>, o: Instance, i: Inst)
    requires o !in insts && AllHold(insts[o := i]) && q.Tracks(insts.Keys + {o}) && Entries(q.pq) <= insts.Keys
    ensures AllHold(insts) && q.Tracks(insts.Keys)
  {
    forall x | x in insts
      ensures Holds(x, insts[x])
    {
      assert Holds(x, insts[o := i][x]);
    }
  }

  lemma QueueFacts(spec: Spec, v: View<Instance>)
    requires Inv(spec, v)
    ensures Sound(spec) && Entries(v.queue) <= v.insts.Keys && v.bystate.Keys == spec.states.Keys
            && v.next !in v.members
  {
    hide Exact, AllOk, FiredOk;
  }

  lemma BornUnique(spec: Spec, v: View<Instance>, o: Instance)
    requires Inv(spec, v) && o in v.insts
    ensures forall p :: p in v.insts && p != o ==> v.insts[p].born != v.insts[o].born
  {
    hide Exact, AllOk, FiredOk, QueueOk, Sound;
  }

  lemma UnarmedKeys(insts: map<Instance, Inst>, out: set<Instance>)
    ensures Unarmed(insts, out).Keys == insts.Keys
  {
  }

  lemma SignalsOfOneMore(spec: Spec, insts: map<Instance, Inst>, out: seq<Instance>, o: Instance, now: Time)
    requires o in insts
    ensures Signals(spec, Firings(spec, insts, out + [o], now)) == Signals(spec, Firings(spec, insts, out, now)) +
              if insts[o].deadline > 0 && Ttl(spec, insts[o].state) > 0
              then Raised(spec, insts[o].id, spec.states[insts[o].state].ttl.raise) else []
  {
    assert (out + [o])[..|out|] == out;
    var fs := Firings(spec, insts, out, now);
    if insts[o].deadline > 0 && Ttl(spec, insts[o].state) > 0 {
      var more := fs + [Firing(o, insts[o].id, insts[o].entries, insts[o].state, insts[o].start, now)];
      assert Firings(spec, insts, out + [o], now) == more && more[..|fs|] == fs;
    } else {
      assert Firings(spec, insts, out + [o], now) == fs;
    }
  }

  lemma UnarmedOneMore(insts: map<Instance, Inst>, out: seq<Instance>, o: Instance)
    requires o in insts && o !in out
    ensures Unarmed(insts, Entries(out))[o := insts[o].(deadline := -1)] == Unarmed(insts, Entries(out + [o]))
  {
    assert Entries(out + [o]) == Entries(out) + {o};
    assert o !in Entries(out);
  }

  /** What is known about the root of the queue in the middle of a tick. */
  lemma TickFacts(spec: Spec, v: View<Instance>, out: seq<Instance>, pq: seq<Instance>, now: Time)
    requires Inv(spec, v) && Taken(v, out, pq, now) && pq != []
    ensures pq[0] in v.insts && pq[0] !in out && pq[0] in Entries(v.queue) && pq[0] !in Entries(out)
    ensures v.insts[pq[0]].state in spec.states
  {
    hide Exact, FiredOk, Named;
    assert pq[0] in Entries(pq);
    assert pq[0] in v.queue;
  }

  /** The instances still queued have the deadlines they had before the tick. */
  lemma LeftOver(v: View<Instance>, out: seq<Instance>, pq: seq<Instance>, now: Time)
    requires Taken(v, out, pq, now) && AllHold(Unarmed(v.insts, Entries(out))) && Entries(v.queue) <= v.insts.Keys
    ensures Keys(v.insts, pq) == Deadlines(pq)
    ensures forall o :: o in pq ==> o in v.insts && v.insts[o].deadline == o.deadline
  {
    forall o | o in pq
      ensures o in v.insts && v.insts[o].deadline == o.deadline
    {
      assert o in Entries(pq);
      assert o in Entries(v.queue) && o !in Entries(out);
      HoldsAt(Unarmed(v.insts, Entries(out)), o);
    }
  }

  lemma TxnsDoNotMatter(spec: Spec, v: View<Instance>, txns: seq<Txn>)
    requires Inv(spec, v)
    ensures Inv(spec, v.(txns := txns))
  {
    hide Exact, Named, AllOk, QueueOk, FiredOk, Sound, Keys, Ordered;
  }

  lemma AddAddsOne(spec: Spec, v: View<Instance>, initial: Index, o: Instance, w: View<Instance>)
    requires AddStep(spec, v, initial, o, w)
    ensures w.insts.Keys <= v.insts.Keys + {o}
  {
    hide Requeued, Entered, NewInst, Linked;
  }

  lemma TickKeepsInsts(spec: Spec, v: View<Instance>, out: seq<Instance>, w: View<Instance>)
    requires TickStep(spec, v, out, w)
    ensures w.insts.Keys == v.insts.Keys
  {
  }

  lemma DeleteKeepsInsts(v: View<Instance>, id: ID)
    ensures DeleteStep(v, id).insts.Keys == v.insts.Keys
  {
  }

  lemma EventKeepsInsts(spec: Spec, v: View<Instance>, id: ID, signal: Signal, actionFails: bool, w: View<Instance>)
    requires EventStep(spec, v, id, signal, actionFails, w)
    ensures w.insts.Keys == v.insts.Keys
  {
    hide Requeued, FlapCheck, Landing, Entered, VisitRaise, Raised, NextState, Linked, Unlinked, Keys, Below;
  }

  datatype Input = Enter(txn: Txn) | Turn(actionFails: bool)

  /** Drives a new set by any sequence of inputs and turns of the loop: what happens is a run. */
  method Drive(spec: Spec, inputs: seq<Input>)
    returns (s: Set, ghost views: seq<View<Instance>>, ghost moves: seq<Move<Instance>>)
    requires Sound(spec)
    ensures s.Valid() && IsRun(spec, views, moves) && s.view == views[|views| - 1]
    ensures forall o :: o in s.view.insts ==> (o.index > -1 <==> o in s.deadlines.pq)
    ensures forall i :: 0 <= i < |s.deadlines.pq| ==> s.deadlines.pq[i].index == i
  {
    hide Inv, Queue.Tracks, AllHold, Step;
    s := new Set(spec);
    views, moves := [s.view], [];
    for k := 0 to |inputs|
      invariant fresh(s) && fresh(s.deadlines) && s.spec == spec && s.Valid()
      invariant forall o :: o in s.view.insts ==> fresh(o) && fresh(o.flaps)
      invariant IsRun(spec, views, moves) && s.view == views[|views| - 1]
    {
      match inputs[k] {
        case Enter(txn) =>
          s.SubmitTxn(txn);
          views, moves := views + [s.view], moves + [Submit(txn)];
        case Turn(actionFails) =>
          if s.transactions != [] {
            ghost var choice := s.ProcessNext(actionFails);
            views, moves := views + [s.view], moves + [Process(choice)];
          }
      }
    }
    TracksExactly(s.deadlines, s.view.insts.Keys);
  }
}
