/** Runs of a set that show which promises fail: a deadline that passes without its signal, and a signal that goes to
    another instance (pkg/fsm/queue.go, pkg/fsm/set.go). */
module FsmWitnesses {
  import opened Wrappers
  import opened FsmSpec
  import opened Heap
  import opened FsmRuns

  // ---------- Making runs longer ----------

  function Last<R>(views: seq<View<R>>): View<R>
    requires views != []
  {
    views[|views| - 1]
  }

  lemma OneMove<R>(spec: Spec, views: seq<View<R>>, moves: seq<Move<R>>, move: Move<R>, w: View<R>)
    requires IsRun(spec, views, moves) && Step(spec, Last(views), move, w)
    ensures IsRun(spec, views + [w], moves + [move])
  {
    hide Step;
    var views', moves' := views + [w], moves + [move];
    forall k | 0 <= k < |moves'| ensures Step(spec, views'[k], moves'[k], views'[k + 1]) {
      if k < |moves| {
        assert views'[k] == views[k] && views'[k + 1] == views[k + 1] && moves'[k] == moves[k];
      }
    }
  }

  /** With no transaction waiting, one is submitted and processed. */
  lemma OneTransaction<R>(spec: Spec, views: seq<View<R>>, moves: seq<Move<R>>, txn: Txn, choice: Choice<R>, w: View<R>)
    returns (views': seq<View<R>>, moves': seq<Move<R>>)
    requires views != [] && IsRun(spec, views, moves) && Last(views).txns == []
    requires Step(spec, Last(views).(txns := [txn]), Process(choice), w)
    ensures views' != [] && IsRun(spec, views', moves') && Last(views') == w && views <= views' && moves <= moves'
    ensures |views'| == |views| + 2 && views'[|views|] == Last(views).(txns := [txn])
  {
    hide IsRun, EventStep, AddStep, TickStep, DeleteStep;
    var u := Last(views).(txns := [txn]);
    assert Step(spec, Last(views), Submit(txn), u) by {
      assert [] + [txn] == [txn];
    }
    OneMove(spec, views, moves, Submit(txn), u);
    OneMove(spec, views + [u], moves + [Submit(txn)], Process(choice), w);
    views', moves' := views + [u] + [w], moves + [Submit(txn)] + [Process(choice)];
  }

  // ---------- A root that is postponed makes others late ----------

  /** An armed deadline has been reached and its signal has not been raised. */
  ghost predicate Late<R>(v: View<R>, o: R) {
    o in v.insts && 0 < v.insts[o].deadline <= v.now
  }

  /** While the root is not due, a tick only moves the clock. */
  lemma IdleTick<R>(spec: Spec, v: View<R>)
    requires NoDup(v.queue) && v.queue != [] && v.queue[0] in v.insts && v.insts[v.queue[0]].deadline > v.now + 1
    ensures TickStep(spec, v, [], v.(now := v.now + 1))
  {
    hide Keys, Ordered;
    assert Unarmed(v.insts, Entries([])) == v.insts;
    assert Entries<R>([]) == {};
    assert v.txns + [] == v.txns && v.fired + [] == v.fired;
  }

  /** Whenever the root of the queue has a later deadline than an armed instance, the clock alone makes that instance
      late. */
  lemma {:induction false} LaterRootMakesLate<R>(spec: Spec, views: seq<View<R>>, moves: seq<Move<R>>, o: R)
    returns (views': seq<View<R>>, moves': seq<Move<R>>)
    requires Sound(spec) && views != [] && IsRun(spec, views, moves)
    requires var v := Last(views);
             && v.txns == [] && o in v.insts && v.queue != [] && v.queue[0] in v.insts
             && 0 < v.insts[o].deadline < v.insts[v.queue[0]].deadline
    ensures views' != [] && IsRun(spec, views', moves') && views <= views' && Late(Last(views'), o)
    decreases Last(views).insts[o].deadline - Last(views).now
  {
    hide IsRun, Inv, TickStep;
    var v := Last(views);
    if v.insts[o].deadline <= v.now {
      views', moves' := views, moves;
    } else {
      assert NoDup(v.queue) by {
        LastKeepsInv(spec, views, moves);
        QueueHasNoDup(spec, v);
      }
      var u := v.(txns := [Tick]);
      IdleTick(spec, v);
      assert u.(txns := u.txns[1..]) == v;
      views', moves' := OneTransaction(spec, views, moves, Tick, TakeOut([]), v.(now := v.now + 1));
      views', moves' := LaterRootMakesLate(spec, views', moves', o);
    }
  }

  lemma LastKeepsInv<R>(spec: Spec, views: seq<View<R>>, moves: seq<Move<R>>)
    requires Sound(spec) && IsRun(spec, views, moves)
    ensures Inv(spec, Last(views))
  {
    hide Inv, Step;
    EveryRunKeepsInv(spec, views, moves, |views| - 1);
  }

  lemma QueueHasNoDup<R>(spec: Spec, v: View<R>)
    requires Inv(spec, v)
    ensures NoDup(v.queue)
  {
    hide Exact, Named, AllOk, FiredOk, Sound, Ordered, Keys;
  }

  /** Only the root can be queued without a deadline. */
  ghost predicate OnlyRootUnarmed<R>(insts: map<R, Inst>, queue: seq<R>) {
    forall i :: 0 < i < |queue| ==> queue[i] in insts && insts[queue[i]].deadline > 0
  }

  lemma RequeueKeepsUnarmed<R>(v: View<R>, o: R, n: Inst, q: seq<R>)
    requires QueueOk(v.insts, v.queue) && OnlyRootUnarmed(v.insts, v.queue) && Requeued(v, o, n, q)
    requires n.deadline >= 0 && Ordered(Keys(v.insts[o := n], q))
    ensures OnlyRootUnarmed(v.insts[o := n], q)
  {
    var insts := v.insts[o := n];
    assert forall x :: x in q <==> x in Entries(q);
    assert forall x :: x in v.queue <==> x in Entries(v.queue);
    forall i | 0 < i < |q| ensures q[i] in insts && insts[q[i]].deadline > 0 {
      var x, y := q[i], q[0];
      assert x in Entries(q) && y in Entries(q);
      RootIsMin(Keys(insts, q), |q|);
      assert Keys(insts, q)[0] <= Keys(insts, q)[i];
      if insts[x].deadline == 0 {
        if x != o {
          UnarmedIsRoot(v, x);
        }
        if y != o {
          UnarmedIsRoot(v, y);
        }
      }
    }
  }

  lemma UnarmedIsRoot<R>(v: View<R>, x: R)
    requires QueueOk(v.insts, v.queue) && OnlyRootUnarmed(v.insts, v.queue) && x in v.queue && v.insts[x].deadline == 0
    ensures AtRoot(v, x)
  {
    var i :| 0 <= i < |v.queue| && v.queue[i] == x;
  }

  lemma OrderedFacts<R>(spec: Spec, v: View<R>)
    requires Inv(spec, v)
    ensures QueueOk(v.insts, v.queue) && v.now >= 0 && (!v.disordered ==> Ordered(Keys(v.insts, v.queue)))
  {
    hide Exact, Named, AllOk, FiredOk, Sound, QueueOk, Ordered, Keys;
  }

  lemma AddKeepsUnarmed<R>(spec: Spec, v: View<R>, initial: Index, o: R, w: View<R>)
    requires QueueOk(v.insts, v.queue) && OnlyRootUnarmed(v.insts, v.queue) && v.now >= 0
    requires AddStep(spec, v, initial, o, w) && Ordered(Keys(w.insts, w.queue))
    ensures OnlyRootUnarmed(w.insts, w.queue)
  {
    hide Requeued, Linked, QueueOk, OnlyRootUnarmed, Ordered, Keys;
    if initial in spec.states && initial in v.bystate {
      RequeueKeepsUnarmed(v, o, Entered(spec, NewInst(v.next, initial), initial, v.now), w.queue);
    }
  }

  lemma EnterKeepsUnarmed<R>(spec: Spec, v: View<R>, id: ID, i: Inst, land: Index, w: View<R>)
    requires QueueOk(v.insts, v.queue) && OnlyRootUnarmed(v.insts, v.queue) && v.now >= 0
    requires Known(v, id) && i.state in v.bystate && land in v.bystate && EnterStep(spec, v, id, i, land, w)
    requires Ordered(Keys(w.insts, w.queue))
    ensures OnlyRootUnarmed(w.insts, w.queue)
  {
    hide Requeued, Linked, Unlinked, VisitRaise, QueueOk, OnlyRootUnarmed, Ordered, Keys, Below;
    RequeueKeepsUnarmed(v, v.members[id], Entered(spec, i, land, v.now), w.queue);
  }

  lemma EventKeepsUnarmed<R>(spec: Spec, v: View<R>, id: ID, signal: Signal, actionFails: bool, w: View<R>)
    requires QueueOk(v.insts, v.queue) && OnlyRootUnarmed(v.insts, v.queue) && v.now >= 0
    requires EventStep(spec, v, id, signal, actionFails, w) && Ordered(Keys(w.insts, w.queue))
    ensures OnlyRootUnarmed(w.insts, w.queue)
  {
    hide EnterStep, QueueOk, Ordered, Keys, FlapCheck, NextState, Raised;
    if Known(v, id) {
      var i := v.insts[v.members[id]];
      match NextState(spec, i.state, signal)
      case Failure(_) =>
      case Success((next, _)) =>
        var (h, flapping) := FlapCheck(spec, i, next);
        if flapping.None? {
          EnterKeepsUnarmed(spec, v, id, i.(history := h), Landing(spec, i.state, signal, actionFails).value, w);
        }
    }
  }

  lemma TickKeepsUnarmed<R>(spec: Spec, v: View<R>, out: seq<R>, w: View<R>)
    requires QueueOk(v.insts, v.queue) && v.now >= 0 && Ordered(Keys(v.insts, v.queue)) && TickStep(spec, v, out, w)
    ensures OnlyRootUnarmed(w.insts, w.queue)
  {
    TickTakesExactlyTheDue(spec, v, out, w);
    hide Keys, Ordered, Signals, Firings;
    forall i | 0 < i < |w.queue| ensures w.queue[i] in w.insts && w.insts[w.queue[i]].deadline > 0 {
      assert w.queue[i] in w.queue && w.queue[i] !in Entries(out);
    }
  }

  lemma DeleteKeepsUnarmed<R>(v: View<R>, id: ID)
    requires OnlyRootUnarmed(v.insts, v.queue)
    ensures OnlyRootUnarmed(DeleteStep(v, id).insts, DeleteStep(v, id).queue)
  {
    hide Unlinked;
  }

  lemma StepKeepsUnarmed<R>(spec: Spec, v: View<R>, move: Move<R>, w: View<R>)
    requires Inv(spec, v) && Inv(spec, w) && Step(spec, v, move, w) && OnlyRootUnarmed(v.insts, v.queue)
    requires !v.disordered && !w.disordered
    ensures OnlyRootUnarmed(w.insts, w.queue)
  {
    hide Inv, EventStep, AddStep, TickStep, DeleteStep, OnlyRootUnarmed, QueueOk, Ordered, Keys;
    OrderedFacts(spec, v);
    OrderedFacts(spec, w);
    if move.Process? {
      var u := v.(txns := v.txns[1..]);
      match v.txns[0] {
        case Add(initial) => AddKeepsUnarmed(spec, u, initial, move.choice.o, w);
        case Delete(id) => DeleteKeepsUnarmed(u, id);
        case Event(id, signal) => EventKeepsUnarmed(spec, u, id, signal, move.choice.fails, w);
        case Tick => TickKeepsUnarmed(spec, u, move.choice.out, w);
        case Read =>
      }
    }
  }

  lemma {:induction false} EveryRunHasOnlyRootUnarmed<R>(spec: Spec, views: seq<View<R>>, moves: seq<Move<R>>, k: nat)
    requires Sound(spec) && IsRun(spec, views, moves) && k < |views| && !views[k].disordered
    ensures OnlyRootUnarmed(views[k].insts, views[k].queue)
    decreases k
  {
    hide Inv, Step;
    if k > 0 {
      FlagFollowsSteps(spec, views[k - 1], moves[k - 1], views[k]);
      EveryRunHasOnlyRootUnarmed(spec, views, moves, k - 1);
      EveryRunKeepsInv(spec, views, moves, k - 1);
      EveryRunKeepsInv(spec, views, moves, k);
      StepKeepsUnarmed(spec, views[k - 1], moves[k - 1], views[k]);
    }
  }

  /** A step that grows the stay of the root has left the queue as it was, and every other deadline. */
  lemma PostponingMovesOnlyTheRoot<R>(spec: Spec, v: View<R>, move: Move<R>, w: View<R>)
    requires Step(spec, v, move, w) && PostponesRoot(v, w) && QueueOk(v.insts, v.queue)
    ensures v.queue != [] && w.queue == v.queue && forall x :: x in v.queue && x != v.queue[0] ==>
              x in w.insts && w.insts[x].deadline == v.insts[x].deadline
  {
    hide EventStep, AddStep, TickStep, DeleteStep, Below, Keys;
    if move.Process? {
      var u := v.(txns := v.txns[1..]);
      match v.txns[0] {
        case Add(initial) => AddPostponesNothing(spec, u, initial, move.choice.o, w);
        case Delete(id) => DeletePostponesNothing(u, id);
        case Event(id, signal) => PostponingEvent(spec, u, id, signal, move.choice.fails, w);
        case Tick => TickPostponesNothing(spec, u, move.choice.out, w);
        case Read =>
      }
    }
  }

  lemma PostponingEvent<R>(spec: Spec, v: View<R>, id: ID, signal: Signal, actionFails: bool, w: View<R>)
    requires EventStep(spec, v, id, signal, actionFails, w) && PostponesRoot(v, w) && QueueOk(v.insts, v.queue)
    ensures w.queue == v.queue && forall x :: x in v.queue && x != v.queue[0] ==>
              x in w.insts && w.insts[x].deadline == v.insts[x].deadline
  {
    hide Below, Keys, Ordered, FlapCheck, NextState, Raised, VisitRaise, Linked, Unlinked, Landing;
  }

  /** As soon as a run postpones the root, the clock alone makes an instance late: with RunsThatKeepTheRootAreNeverLate,
      postponing the root is exactly what breaks the promise. */
  lemma PostponingMakesLate<R>(spec: Spec, views: seq<View<R>>, moves: seq<Move<R>>)
    returns (views': seq<View<R>>, moves': seq<Move<R>>, o: R)
    requires Sound(spec) && |views| >= 2 && IsRun(spec, views, moves)
    requires !views[|views| - 2].disordered && PostponesRoot(views[|views| - 2], Last(views)) && Last(views).txns == []
    ensures views' != [] && IsRun(spec, views', moves') && views <= views' && Late(Last(views'), o)
  {
    hide Inv, Step, QueueOk, PostponesRoot;
    var n := |views| - 2;
    var v, w := views[n], views[n + 1];
    EveryRunHasOnlyRootUnarmed(spec, views, moves, n);
    EveryRunKeepsInv(spec, views, moves, n);
    OrderedFacts(spec, v);
    PostponingMovesOnlyTheRoot(spec, v, moves[n], w);
    o := EarlierThanRoot(v, w);
    views', moves' := LaterRootMakesLate(spec, views, moves, o);
  }

  lemma EarlierThanRoot<R>(v: View<R>, w: View<R>) returns (o: R)
    requires QueueOk(v.insts, v.queue) && OnlyRootUnarmed(v.insts, v.queue) && PostponesRoot(v, w) && w.queue == v.queue
    requires forall x :: x in v.queue && x != v.queue[0] ==> x in w.insts && w.insts[x].deadline == v.insts[x].deadline
    ensures w.queue != [] && w.queue[0] in w.insts && o in w.insts
            && 0 < w.insts[o].deadline < w.insts[w.queue[0]].deadline
  {
    var d := Keys(w.insts, w.queue);
    var c :| 0 < c < |d| && (c - 1) / 2 == 0 && !Edge(d, c);
    o := w.queue[c];
    assert d[0] == w.insts[w.queue[0]].deadline && d[c] == w.insts[o].deadline;
  }

  // ---------- A run that postpones the root, and one that sends a signal astray ----------

  const SHORT: Index := 0
  const LONG: Index := 1
  const LENGTHEN: Signal := 0
  const EXPIRE: Signal := 1

  /** Two states with a TTL of 2 and 10 ticks. */
  function TwoTimes(): Spec {
    Spec(map[SHORT :=
               State(SHORT, map[LENGTHEN := LONG, EXPIRE := SHORT], map[], map[], Expiry(2, EXPIRE), Limit(0, 0)),
             LONG := State(LONG, map[EXPIRE := SHORT], map[], map[], Expiry(10, EXPIRE), Limit(0, 0))],
         {LENGTHEN, EXPIRE}, map[])
  }

  lemma TwoTimesIsSound()
    ensures Sound(TwoTimes())
  {}

  function Waiting(id: ID): Inst {
    Inst(id, id, SHORT, 0, 2, map[SHORT := 2], 1, [])
  }

  /** Some instances, known by the ids they got, all in the shorter state since the beginning. */
  function Joined(refs: map<ID, nat>, queue: seq<nat>): View<nat> {
    View(0, |queue|, refs, map[SHORT := refs, LONG := map[]], map id | id in refs :: Waiting(id),
         queue, [], refs, [], false)
  }

  lemma AppendRequeues<R>(v: View<R>, o: R, n: Inst)
    requires NoDup(v.queue) && o !in v.queue && n.deadline > 0
    requires forall x :: x in v.queue ==> x in v.insts && v.insts[x].deadline <= n.deadline
    ensures Requeued(v, o, n, v.queue + [o])
  {
    var q, insts := v.queue + [o], v.insts[o := n];
    var d, e := Keys(v.insts, v.queue), Keys(insts, q);
    assert Entries(q) == Entries(v.queue) + {o};
    forall i | 0 <= i < |d| ensures e[i] == d[i] <= n.deadline {
      assert q[i] == v.queue[i] && v.queue[i] in v.queue;
    }
    if Ordered(d) {
      forall c | 0 < c < |e| ensures Edge(e, c) {
        assert c < |d| ==> Edge(d, c);
      }
    }
  }

  lemma AddsOne(spec: Spec, refs: map<ID, nat>, queue: seq<nat>)
    requires spec == TwoTimes() && NoDup(queue) && |queue| !in refs && forall x <- queue :: x in refs
    ensures AddStep(spec, Joined(refs, queue), SHORT, |queue|, Joined(refs[|queue| := |queue|], queue + [|queue|]))
  {
    hide Requeued, NoDup;
    var n := |queue|;
    var v, w := Joined(refs, queue), Joined(refs[n := n], queue + [n]);
    var i := Entered(spec, NewInst(n, SHORT), SHORT, 0);
    assert i == Waiting(n);
    assert w.insts == v.insts[n := i];
    AppendRequeues(v, n, i);
    assert w.bystate == Linked(v.bystate, SHORT, n, n);
  }

  const TWO := Joined(map[0 := 0, 1 := 1], [0, 1])

  lemma AddTransaction(spec: Spec, views: seq<View<nat>>, moves: seq<Move<nat>>, refs: map<ID, nat>, queue: seq<nat>)
    returns (views': seq<View<nat>>, moves': seq<Move<nat>>)
    requires spec == TwoTimes() && NoDup(queue) && |queue| !in refs && forall x <- queue :: x in refs
    requires views != [] && IsRun(spec, views, moves) && Last(views) == Joined(refs, queue)
    ensures views' != [] && IsRun(spec, views', moves')
            && Last(views') == Joined(refs[|queue| := |queue|], queue + [|queue|])
  {
    hide IsRun, AddStep, TwoTimes;
    var v, n := Joined(refs, queue), |queue|;
    AddsOne(spec, refs, queue);
    assert v.(txns := [Add(SHORT)]).(txns := [Add(SHORT)][1..]) == v;
    views', moves' := OneTransaction(spec, views, moves, Add(SHORT), AddAs(n), Joined(refs[n := n], queue + [n]));
  }

  lemma NoneAdded(spec: Spec)
    requires spec == TwoTimes()
    ensures IsRun(spec, [Joined(map[], [])], [])
  {
    assert Joined(map[], []) == Start(spec);
  }

  lemma RunToTwo(spec: Spec) returns (views: seq<View<nat>>, moves: seq<Move<nat>>)
    requires spec == TwoTimes()
    ensures views != [] && IsRun(spec, views, moves) && Last(views) == TWO
  {
    hide IsRun, Joined, TwoTimes;
    NoneAdded(spec);
    views, moves := [Joined(map[], [])], [];
    views, moves := AddTransaction(spec, views, moves, map[], []);
    assert map[][0 := 0] == map[0 := 0] && [] + [0] == [0];
    views, moves := AddTransaction(spec, views, moves, map[0 := 0], [0]);
    assert map[0 := 0][1 := 1] == map[0 := 0, 1 := 1] && [0] + [1] == [0, 1];
  }

  lemma RootRequeues<R>(v: View<R>, n: Inst)
    requires NoDup(v.queue) && v.queue != [] && n.deadline > 0 && forall x <- v.queue :: x in v.insts
    ensures Requeued(v, v.queue[0], n, v.queue)
    ensures Keys(v.insts[v.queue[0] := n], v.queue) == Keys(v.insts, v.queue)[0 := n.deadline]
  {
    hide Ordered;
    var o := v.queue[0];
    var d, e := Keys(v.insts, v.queue), Keys(v.insts[o := n], v.queue);
    forall i | 0 <= i < |d| ensures e[i] == d[0 := n.deadline][i] {
      assert v.queue[i] in v.insts;
    }
    assert e == d[0 := n.deadline];
    assert Entries(v.queue) == Entries(v.queue) + {o};
    if Ordered(d) {
      ChangedRoot(d, n.deadline);
    }
  }

  lemma TwoFacts()
    ensures NoDup(TWO.queue) && TWO.queue == [0, 1] && TWO.insts == map[0 := Waiting(0), 1 := Waiting(1)]
    ensures TWO.members == map[0 := 0, 1 := 1] && Known(TWO, 0) && Known(TWO, 1) && TWO.now == 0 && !TWO.disordered
    ensures TWO.bystate.Keys == {SHORT, LONG} && TWO.txns == [] && TWO.fired == []
  {}

  ghost function Lengthened(spec: Spec): View<nat>
    requires spec == TwoTimes()
  {
    TwoFacts();
    MovedMember(spec, TWO, 0, SHORT, Entered(spec, Waiting(0), LONG, 0), [0, 1])
  }

  lemma LengthenedSpec(spec: Spec)
    requires spec == TwoTimes()
    ensures NextState(spec, SHORT, LENGTHEN) == Success((LONG, false))
            && Landing(spec, SHORT, LENGTHEN, false) == Success(LONG)
    ensures FlapCheck(spec, Waiting(0), LONG) == ([], None) && Ttl(spec, LONG) == 10
    ensures forall i: Inst | i.state == LONG :: VisitRaise(spec, i) == []
  {}

  lemma LengtheningIsAStep(spec: Spec)
    requires spec == TwoTimes()
    ensures EventStep(spec, TWO, 0, LENGTHEN, false, Lengthened(spec))
  {
    TwoFacts();
    LengthenedSpec(spec);
    hide TWO, TwoTimes, NextState, Landing, FlapCheck, VisitRaise, Keys, Requeued, NoDup, Linked, Unlinked;
    var n := Entered(spec, Waiting(0), LONG, 0);
    RootRequeues(TWO, n);
    assert EnterStep(spec, TWO, 0, Waiting(0), LONG, Lengthened(spec));
    assert Waiting(0).(history := []) == Waiting(0);
  }

  lemma LengtheningPostpones(spec: Spec, txns: seq<Txn>)
    requires spec == TwoTimes()
    ensures PostponesRoot(TWO.(txns := txns), Lengthened(spec)) && Lengthened(spec).txns == []
  {
    TwoFacts();
    LengthenedSpec(spec);
    hide TWO, TwoTimes, NextState, Landing, FlapCheck, VisitRaise, NoDup, Linked, Unlinked;
    var w := Lengthened(spec);
    assert w.queue == [0, 1] && w.insts[0].deadline == 10 && w.insts[1].deadline == 2;
    assert !Edge(Keys(w.insts, w.queue), 1);
  }

  /** A run in which an armed and queued deadline passes without its signal. */
  lemma ARunIsLate(spec: Spec) returns (views: seq<View<nat>>, moves: seq<Move<nat>>, o: nat)
    requires spec == TwoTimes()
    ensures Sound(spec) && views != [] && IsRun(spec, views, moves) && Late(Last(views), o)
  {
    hide TwoTimes, Lengthened, TWO, EventStep, PostponesRoot, IsRun;
    TwoTimesIsSound();
    TwoFacts();
    LengtheningIsAStep(spec);
    LengtheningPostpones(spec, [Event(0, LENGTHEN)]);
    views, moves := RunToTwo(spec);
    var u, w := TWO.(txns := [Event(0, LENGTHEN)]), Lengthened(spec);
    assert u.(txns := u.txns[1..]) == TWO;
    views, moves := OneTransaction(spec, views, moves, Event(0, LENGTHEN), ActionEnds(false), w);
    views, moves, o := PostponingMakesLate(spec, views, moves);
  }

  /** The second instance has been deleted, and one tick has passed. */
  ghost function DeletedOne(): View<nat> {
    DeleteStep(TWO, 1).(now := 1)
  }

  lemma DeletedFacts()
    ensures DeletedOne().queue == [0, 1] && DeletedOne().now == 1 && DeletedOne().txns == [] && DeletedOne().fired == []
    ensures DeletedOne().members == map[0 := 0]
    ensures DeletedOne().insts == map[0 := Waiting(0), 1 := Waiting(1).(id := 0)]
  {
    TwoFacts();
    hide TWO, Unlinked;
  }

  lemma RunToDeleted(spec: Spec) returns (views: seq<View<nat>>, moves: seq<Move<nat>>)
    requires spec == TwoTimes()
    ensures views != [] && IsRun(spec, views, moves) && Last(views) == DeletedOne()
  {
    hide TwoTimes, TWO, DeleteStep, TickStep, IsRun;
    TwoFacts();
    DeletedFacts();
    views, moves := RunToTwo(spec);
    var v, w := DeleteStep(TWO, 1), DeletedOne();
    assert v == w.(now := 0) by { DeletedAtStart(); }
    assert TWO.(txns := [Delete(1)]).(txns := [Delete(1)][1..]) == TWO;
    views, moves := OneTransaction(spec, views, moves, Delete(1), NoChoice, v);
    IdleTick(spec, v);
    assert v.(txns := [Tick]).(txns := [Tick][1..]) == v;
    views, moves := OneTransaction(spec, views, moves, Tick, TakeOut([]), w);
  }

  lemma DeletedAtStart()
    ensures DeleteStep(TWO, 1) == DeletedOne().(now := 0)
  {
    TwoFacts();
    hide TWO, Unlinked;
  }

  lemma BothAreTaken(spec: Spec)
    requires spec == TwoTimes()
    ensures TickStep(spec, DeletedOne(), [0, 1], Ticked(spec, DeletedOne(), [0, 1], []))
  {
    DeletedFacts();
    hide DeletedOne, TwoTimes, Keys, Firings, Signals, Unarmed;
    assert Entries([0, 1]) - Entries([0, 1]) == Entries<nat>([]);
    forall o | o in [0, 1] ensures o in DeletedOne().insts && DeletedOne().insts[o].deadline <= 2 {}
  }

  /** A run in which the signal for one instance goes to another: the id of a deleted instance is that of the first. */
  lemma ASignalGoesAstray(spec: Spec) returns (views: seq<View<nat>>, moves: seq<Move<nat>>, n: nat)
    requires spec == TwoTimes()
    ensures Sound(spec) && views != [] && IsRun(spec, views, moves)
    ensures var v := Last(views);
            && n < |v.fired| && v.fired[n].inst in v.insts
            && v.fired[n].target != v.insts[v.fired[n].inst].born
            && v.fired[n].target in v.members && v.members[v.fired[n].target] != v.fired[n].inst
  {
    hide TwoTimes, DeletedOne, TickStep, IsRun, Signals, Firings;
    TwoTimesIsSound();
    DeletedFacts();
    BothAreTaken(spec);
    views, moves := RunToDeleted(spec);
    var v := DeletedOne();
    var w := Ticked(spec, v, [0, 1], []);
    assert v.(txns := [Tick]).(txns := [Tick][1..]) == v;
    views, moves := OneTransaction(spec, views, moves, Tick, TakeOut([0, 1]), w);
    n := SecondFires(spec);
  }

  lemma SecondFires(spec: Spec) returns (n: nat)
    requires spec == TwoTimes()
    ensures var w := Ticked(spec, DeletedOne(), [0, 1], []);
            && n < |w.fired| && w.fired[n].inst == 1 && w.fired[n].target == 0
            && w.members == map[0 := 0] && 1 in w.insts && w.insts[1].born == 1
  {
    DeletedFacts();
    ShortIsArmed(spec);
    hide DeletedOne, TwoTimes, Firings, Signals, Ttl;
    var v := DeletedOne();
    n := FiresFor(spec, v.insts, [0, 1], 2, 1);
    assert Ticked(spec, v, [0, 1], []).fired == Firings(spec, v.insts, [0, 1], 2);
  }

  lemma FiresFor<R>(spec: Spec, insts: map<R, Inst>, out: seq<R>, now: Time, o: R) returns (n: nat)
    requires NoDup(out) && (forall x :: x in out ==> x in insts) && o in out && Armed(spec, insts[o])
    ensures n < |Firings(spec, insts, out, now)| && Firings(spec, insts, out, now)[n] == FiringOf(insts, o, now)
  {
    hide Armed;
    FiringsAreTheArmed(spec, insts, out, now);
    var fs := Firings(spec, insts, out, now);
    n :| 0 <= n < |fs| && fs[n] == FiringOf(insts, o, now);
  }

  lemma ShortIsArmed(spec: Spec)
    requires spec == TwoTimes()
    ensures Ttl(spec, SHORT) == 2
  {}
}
