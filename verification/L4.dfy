/** Reconciling the routes of an L4 load balancer (pkg/controller/ingress/l4.go). */
module L4 {
  import opened Wrappers

  datatype Route = Route(
    port: int, protocol: string, lbPort: int, lbProtocol: string,
    certificate: Option<string>, healthMonitorPath: Option<string>)

  function Text(o: Option<string>): string {
    if o.Some? then o.value else ""
  }

  /** The same listener: what makes an existing route a match for a desired one. */
  predicate Agrees(a: Route, b: Route) {
    a.lbPort == b.lbPort && a.protocol == b.protocol && a.lbProtocol == b.lbProtocol
  }

  /** Equal on all fields compared; an absent certificate or path is an empty one. */
  predicate Same(a: Route, b: Route) {
    Agrees(a, b) && a.port == b.port && Text(a.certificate) == Text(b.certificate)
    && Text(a.healthMonitorPath) == Text(b.healthMonitorPath)
  }

  // ---------- Routes by load-balancer port ----------

  function At(routes: seq<Route>, p: int): seq<Route> {
    if routes == [] then []
    else At(routes[..|routes| - 1], p) + if routes[|routes| - 1].lbPort == p then [routes[|routes| - 1]] else []
  }

  lemma {:induction false} AtIsThere(routes: seq<Route>, p: int)
    ensures forall r <- At(routes, p) :: r in routes && r.lbPort == p
  {
    if routes != [] {
      AtIsThere(routes[..|routes| - 1], p);
    }
  }

  lemma {:induction false} AtJoins(a: seq<Route>, b: seq<Route>, p: int)
    ensures At(a + b, p) == At(a, p) + At(b, p)
  {
    if b == [] {
      assert a + b == a;
    } else {
      var init := b[..|b| - 1];
      AtJoins(a, init, p);
      assert (a + b)[..|a + b| - 1] == a + init;
    }
  }

  lemma AtOne(r: Route, p: int)
    ensures At([r], p) == if r.lbPort == p then [r] else []
  {
    assert [r][..0] == [];
  }

  lemma AtOneMore(routes: seq<Route>, r: Route, p: int)
    ensures At(routes + [r], p) == if r.lbPort == p then At(routes, p) + [r] else At(routes, p)
  {
    AtJoins(routes, [r], p);
    AtOne(r, p);
  }

  lemma {:induction false} AtHolds(routes: seq<Route>, r: Route)
    requires r in routes
    ensures r in At(routes, r.lbPort)
  {
    if r != routes[|routes| - 1] {
      AtHolds(routes[..|routes| - 1], r);
    }
  }

  predicate DistinctPorts(routes: seq<Route>) {
    forall r <- routes :: |At(routes, r.lbPort)| <= 1
  }

  lemma AtMostOne(routes: seq<Route>, p: int)
    requires DistinctPorts(routes)
    ensures |At(routes, p)| <= 1
  {
    hide At;
    AtIsThere(routes, p);
    if |At(routes, p)| > 0 {
      assert At(routes, p)[0] in routes;
    }
  }

  lemma AtMostOneOfPart(routes: seq<Route>, n: nat, p: int)
    requires DistinctPorts(routes) && n <= |routes|
    ensures |At(routes[..n], p)| + |At(routes[n..], p)| <= 1
  {
    hide At, DistinctPorts;
    AtMostOne(routes, p);
    AtJoins(routes[..n], routes[n..], p);
    assert routes == routes[..n] + routes[n..];
  }

  // ---------- What is wanted ----------

  /** One list of at most one route stands for another. */
  predicate Alike(a: seq<Route>, b: seq<Route>) {
    |a| == |b| && (a != [] ==> Same(a[0], b[0]))
  }

  /** Exactly the desired routes, on the fields compared. */
  ghost predicate Configured(routes: seq<Route>, desired: seq<Route>) {
    forall p :: Alike(At(routes, p), At(desired, p))
  }

  /** Where both sides have a route on a port, the protocols are equal. */
  predicate ProtocolsAgree(existing: seq<Route>, desired: seq<Route>) {
    forall e <- existing, d <- desired | e.lbPort == d.lbPort :: Agrees(e, d)
  }

  /** An existing route matches a desired one on the port. */
  predicate Matched(e: seq<Route>, d: seq<Route>) {
    e != [] && d != [] && Agrees(e[0], d[0])
  }

  // ---------- Deciding what to do ----------

  datatype Operation = Create | Change | Noop

  /** The decision for a desired route: the first agreeing one, if any, is taken from the list. */
  ghost predicate Decided(op: Operation, routes: seq<Route>, d: Route, left: seq<Route>) {
    if op == Create then left == routes && forall r <- routes :: !Agrees(r, d)
    else exists k :: && 0 <= k < |routes| && left == routes[..k] + routes[k + 1..] && Agrees(routes[k], d)
                     && (forall j :: 0 <= j < k ==> !Agrees(routes[j], d))
                     && (op == Noop <==> Same(routes[k], d))
  }

  method GetRouteOperation(routes: seq<Route>, desired: Route) returns (op: Operation, left: seq<Route>)
    ensures Decided(op, routes, desired, left)
  {
    for k := 0 to |routes|
      invariant forall j :: 0 <= j < k ==> !Agrees(routes[j], desired)
    {
      var route := routes[k];
      if route.lbPort == desired.lbPort && route.protocol == desired.protocol
          && route.lbProtocol == desired.lbProtocol {
        left := routes[..k] + routes[k + 1..];
        if route.port != desired.port || Text(route.certificate) != Text(desired.certificate)
           || Text(route.healthMonitorPath) != Text(desired.healthMonitorPath) {
          return Change, left;
        }
        return Noop, left;
      }
    }
    return Create, routes;
  }

  /** What a plan must have on a port, from what exists there and what is desired. */
  ghost predicate PlannedAt(e: seq<Route>, d: seq<Route>, create: seq<Route>, change: seq<Route>, left: seq<Route>) {
    && left == (if Matched(e, d) then [] else e)
    && create == (if Matched(e, d) then [] else d)
    && change == (if Matched(e, d) && !Same(e[0], d[0]) then d else [])
  }

  ghost predicate Planned(existing: seq<Route>, desired: seq<Route>, create: seq<Route>, change: seq<Route>,
                          left: seq<Route>) {
    forall p :: PlannedAt(At(existing, p), At(desired, p), At(create, p), At(change, p), At(left, p))
  }

  /** On one port, the decision for one desired route there. */
  lemma DecidedAt(routes: seq<Route>, d: Route, k: nat, p: int)
    requires k < |routes| && routes[k].lbPort == d.lbPort && forall q :: |At(routes, q)| <= 1
    ensures At(routes, d.lbPort) == [routes[k]]
    ensures At(routes[..k] + routes[k + 1..], p) == if p == d.lbPort then [] else At(routes, p)
  {
    hide At;
    AtIsThere(routes, d.lbPort);
    AtJoins(routes[..k], routes[k..], p);
    AtJoins(routes[..k], routes[k + 1..], p);
    AtJoins([routes[k]], routes[k + 1..], p);
    AtOne(routes[k], p);
    assert routes == routes[..k] + routes[k..] && routes[k..] == [routes[k]] + routes[k + 1..];
    AtHolds(routes, routes[k]);
    assert |At(routes, d.lbPort)| <= 1 && |At(routes, p)| <= 1;
  }

  lemma PlanOneMore(existing: seq<Route>, desired: seq<Route>, d: Route, create: seq<Route>, change: seq<Route>,
                    routes: seq<Route>, op: Operation, left: seq<Route>, p: int)
    requires Planned(existing, desired, create, change, routes) && Decided(op, routes, d, left)
    requires forall q :: |At(existing, q)| <= 1
    requires At(desired, d.lbPort) == []
    ensures PlannedAt(At(existing, p), At(desired + [d], p), At(if op == Create then create + [d] else create, p),
                      At(if op == Change then change + [d] else change, p), At(left, p))
  {
    hide At, Agrees, Same, PlannedAt;
    AtOneMore(desired, d, p);
    AtOneMore(create, d, p);
    AtOneMore(change, d, p);
    forall q ensures |At(routes, q)| <= 1 {
      assert PlannedAt(At(existing, q), At(desired, q), At(create, q), At(change, q), At(routes, q));
      LeftIsExisting(At(existing, q), At(desired, q), At(create, q), At(change, q), At(routes, q));
    }
    assert PlannedAt(At(existing, p), At(desired, p), At(create, p), At(change, p), At(routes, p));
    DecidedOnPort(op, routes, d, left, p);
    if p == d.lbPort {
      PlannedForOne(op, At(existing, p), d, At(create, p), At(change, p), At(routes, p), At(left, p));
    }
  }

  lemma LeftIsExisting(e: seq<Route>, d: seq<Route>, create: seq<Route>, change: seq<Route>, left: seq<Route>)
    requires PlannedAt(e, d, create, change, left)
    ensures |left| <= |e|
  {}

  /** The decision seen on one port. */
  lemma DecidedOnPort(op: Operation, routes: seq<Route>, d: Route, left: seq<Route>, p: int)
    requires Decided(op, routes, d, left) && forall q :: |At(routes, q)| <= 1
    ensures p != d.lbPort ==> At(left, p) == At(routes, p)
    ensures p == d.lbPort ==>
              if op == Create then At(left, p) == At(routes, p) && forall r <- At(routes, p) :: !Agrees(r, d)
              else At(left, p) == [] && |At(routes, p)| == 1 && Agrees(At(routes, p)[0], d)
                   && (op == Noop <==> Same(At(routes, p)[0], d))
  {
    hide At;
    AtIsThere(routes, p);
    if op != Create {
      var k :| && 0 <= k < |routes| && left == routes[..k] + routes[k + 1..] && Agrees(routes[k], d)
               && (op == Noop <==> Same(routes[k], d));
      DecidedAt(routes, d, k, p);
    }
  }

  lemma PlannedForOne(op: Operation, e: seq<Route>, d: Route, create: seq<Route>, change: seq<Route>,
                      routes: seq<Route>,
                      left: seq<Route>)
    requires PlannedAt(e, [], create, change, routes)
    requires if op == Create then left == routes && forall r <- routes :: !Agrees(r, d)
             else left == [] && |routes| == 1 && Agrees(routes[0], d) && (op == Noop <==> Same(routes[0], d))
    ensures PlannedAt(e, [] + [d], if op == Create then create + [d] else create,
                      if op == Change then change + [d] else change, left)
  {
    hide Agrees, Same;
  }

  method Plan(existing: seq<Route>, desired: seq<Route>)
    returns (toCreate: seq<Route>, toChange: seq<Route>, left: seq<Route>)
    ensures DistinctPorts(existing) && DistinctPorts(desired) ==> Planned(existing, desired, toCreate, toChange, left)
  {
    hide At, PlannedAt, Agrees, Same, DistinctPorts;
    toCreate, toChange, left := [], [], existing;
    ghost var distinct := DistinctPorts(existing) && DistinctPorts(desired);
    NothingPlanned(existing);
    for i := 0 to |desired|
      invariant distinct ==> Planned(existing, desired[..i], toCreate, toChange, left)
    {
      var op, rest := GetRouteOperation(left, desired[i]);
      assert desired[..i + 1] == desired[..i] + [desired[i]];
      if distinct {
        PlanStep(existing, desired, i, toCreate, toChange, left, op, rest);
      }
      match op {
        case Create => toCreate := toCreate + [desired[i]];
        case Change => toChange := toChange + [desired[i]];
        case Noop =>
      }
      left := rest;
    }
    assert desired[..|desired|] == desired;
  }

  lemma NothingPlanned(existing: seq<Route>)
    ensures Planned(existing, [], [], [], existing)
  {}

  lemma PlanStep(existing: seq<Route>, desired: seq<Route>, i: nat, create: seq<Route>, change: seq<Route>,
                 routes: seq<Route>, op: Operation, left: seq<Route>)
    requires i < |desired| && DistinctPorts(existing) && DistinctPorts(desired)
    requires Planned(existing, desired[..i], create, change, routes) && Decided(op, routes, desired[i], left)
    ensures Planned(existing, desired[..i] + [desired[i]], if op == Create then create + [desired[i]] else create,
                    if op == Change then change + [desired[i]] else change, left)
  {
    hide At, PlannedAt, Decided;
    var d := desired[i];
    AtMostOneOfPart(desired, i, d.lbPort);
    AtJoins([d], desired[i + 1..], d.lbPort);
    AtOne(d, d.lbPort);
    assert desired[i..] == [d] + desired[i + 1..];
    forall q ensures |At(existing, q)| <= 1 { AtMostOne(existing, q); }
    forall p ensures PlannedAt(At(existing, p), At(desired[..i] + [d], p),
                               At(if op == Create then create + [d] else create, p),
                               At(if op == Change then change + [d] else change, p), At(left, p)) {
      PlanOneMore(existing, desired[..i], d, create, change, routes, op, left, p);
    }
  }

  // ---------- Carrying it out ----------

  datatype Call = Publish(route: Route) | Unpublish(extPort: int)

  function Removed(routes: seq<Route>, p: int): seq<Route> {
    if routes == [] then []
    else Removed(routes[..|routes| - 1], p) + if routes[|routes| - 1].lbPort == p then [] else [routes[|routes| - 1]]
  }

  lemma {:induction false} AtRemoved(routes: seq<Route>, p: int, q: int)
    ensures At(Removed(routes, p), q) == if p == q then [] else At(routes, q)
  {
    if routes != [] {
      var init, r := routes[..|routes| - 1], routes[|routes| - 1];
      AtRemoved(init, p, q);
      if r.lbPort != p {
        AtOneMore(Removed(init, p), r, q);
      } else {
        assert Removed(routes, p) == Removed(init, p);
      }
    }
  }

  /** A load balancer: publishing adds a rule, unpublishing takes away what is on a port. Any call may fail, as
      `fails` says by the number of calls made before. */
  class Balancer {
    const fails: nat -> bool
    var routes: seq<Route>
    var calls: seq<Call>

    method Publish(route: Route) returns (ok: bool)
      modifies this
      ensures calls == old(calls) + [Call.Publish(route)] && ok == !fails(|old(calls)|)
      ensures routes == if ok then old(routes) + [route] else old(routes)
    {
      ok := !fails(|calls|);
      calls := calls + [Call.Publish(route)];
      if ok {
        routes := routes + [route];
      }
    }

    method Unpublish(extPort: int) returns (ok: bool)
      modifies this
      ensures calls == old(calls) + [Call.Unpublish(extPort)] && ok == !fails(|old(calls)|)
      ensures routes == if ok then Removed(old(routes), extPort) else old(routes)
    {
      ok := !fails(|calls|);
      calls := calls + [Call.Unpublish(extPort)];
      if ok {
        routes := Removed(routes, extPort);
      }
    }
  }

  /** Only calls that unpublish a port on which one of the routes is. */
  ghost predicate UnpublishesOnly(calls: seq<Call>, routes: seq<Route>) {
    forall c <- calls | c.Unpublish? :: At(routes, c.extPort) != []
  }

  /** None of the calls between these two numbers failed. */
  ghost predicate NoneFailed(fails: nat -> bool, from: nat, to: nat) {
    forall i: nat :: from <= i < to ==> !fails(i)
  }

  method CreateAll(lb: Balancer, toCreate: seq<Route>) returns (ok: bool, ghost log: seq<Call>)
    modifies lb
    ensures ok <==> NoneFailed(lb.fails, |old(lb.calls)|, |lb.calls|)
    ensures lb.calls == old(lb.calls) + log && UnpublishesOnly(log, []) && (log == [] <==> toCreate == [])
    ensures ok ==> lb.routes == old(lb.routes) + toCreate
    ensures log == [] ==> ok && lb.routes == old(lb.routes)
  {
    log := [];
    for i := 0 to |toCreate|
      invariant lb.calls == old(lb.calls) + log && UnpublishesOnly(log, []) && (log == [] <==> i == 0)
      invariant lb.routes == old(lb.routes) + toCreate[..i] && NoneFailed(lb.fails, |old(lb.calls)|, |lb.calls|)
    {
      var published := lb.Publish(toCreate[i]);
      log := log + [Call.Publish(toCreate[i])];
      if !published {
        return false, log;
      }
      assert toCreate[..i + 1] == toCreate[..i] + [toCreate[i]];
    }
    assert toCreate[..|toCreate|] == toCreate;
    return true, log;
  }

  /** On a port with changes, the last of them; elsewhere what was there. */
  ghost predicate ChangedOnly(routes: seq<Route>, was: seq<Route>, changes: seq<Route>) {
    forall p :: At(routes, p) == if At(changes, p) == [] then At(was, p) else [At(changes, p)[|At(changes, p)| - 1]]
  }

  lemma ChangeOne(routes: seq<Route>, was: seq<Route>, changes: seq<Route>, d: Route)
    requires ChangedOnly(routes, was, changes)
    ensures ChangedOnly(Removed(routes, d.lbPort) + [d], was, changes + [d])
  {
    hide At, Removed;
    forall p ensures var at := At(changes + [d], p);
                     At(Removed(routes, d.lbPort) + [d], p) == if at == [] then At(was, p) else [at[|at| - 1]] {
      AtRemoved(routes, d.lbPort, p);
      AtOneMore(Removed(routes, d.lbPort), d, p);
      AtOneMore(changes, d, p);
    }
  }

  lemma UnpublishOneMore(log: seq<Call>, routes: seq<Route>, d: Route)
    requires UnpublishesOnly(log, routes)
    ensures UnpublishesOnly(log + [Call.Unpublish(d.lbPort)], routes + [d])
    ensures UnpublishesOnly(log + [Call.Unpublish(d.lbPort), Call.Publish(d)], routes + [d])
  {
    hide At;
    forall p ensures At(routes, p) != [] || p == d.lbPort ==> At(routes + [d], p) != [] {
      AtOneMore(routes, d, p);
    }
  }

  lemma UnpublishesMore(log: seq<Call>, part: seq<Route>, rest: seq<Route>)
    requires UnpublishesOnly(log, part)
    ensures UnpublishesOnly(log, part + rest)
  {
    hide At;
    forall p ensures At(part, p) != [] ==> At(part + rest, p) != [] {
      AtJoins(part, rest, p);
    }
  }

  method ChangeAll(lb: Balancer, toChange: seq<Route>) returns (ok: bool, ghost log: seq<Call>)
    modifies lb
    ensures ok <==> NoneFailed(lb.fails, |old(lb.calls)|, |lb.calls|)
    ensures lb.calls == old(lb.calls) + log && UnpublishesOnly(log, toChange) && (log == [] <==> toChange == [])
    ensures ok ==> ChangedOnly(lb.routes, old(lb.routes), toChange)
    ensures log == [] ==> ok && lb.routes == old(lb.routes)
  {
    hide At, Removed, UnpublishesOnly;
    log := [];
    NothingDone(lb.routes);
    for i := 0 to |toChange|
      invariant lb.calls == old(lb.calls) + log && UnpublishesOnly(log, toChange[..i]) && (log == [] <==> i == 0)
      invariant ChangedOnly(lb.routes, old(lb.routes), toChange[..i]) && (i == 0 ==> lb.routes == old(lb.routes))
      invariant NoneFailed(lb.fails, |old(lb.calls)|, |lb.calls|)
    {
      var d := toChange[i];
      assert toChange[..i + 1] == toChange[..i] + [d] && toChange == toChange[..i + 1] + toChange[i + 1..];
      UnpublishOneMore(log, toChange[..i], d);
      UnpublishesMore(log + [Call.Unpublish(d.lbPort)], toChange[..i + 1], toChange[i + 1..]);
      UnpublishesMore(log + [Call.Unpublish(d.lbPort), Call.Publish(d)], toChange[..i + 1], toChange[i + 1..]);
      ChangeOne(lb.routes, old(lb.routes), toChange[..i], d);
      var unpublished := lb.Unpublish(d.lbPort);
      if !unpublished {
        return false, log + [Call.Unpublish(d.lbPort)];
      }
      var published := lb.Publish(d);
      log := log + [Call.Unpublish(d.lbPort), Call.Publish(d)];
      if !published {
        return false, log;
      }
    }
    assert toChange[..|toChange|] == toChange;
    return true, log;
  }

  /** On a port with removals nothing; elsewhere what was there. */
  ghost predicate RemovedOnly(routes: seq<Route>, was: seq<Route>, removals: seq<Route>) {
    forall p :: At(routes, p) == if At(removals, p) == [] then At(was, p) else []
  }

  lemma RemoveOne(routes: seq<Route>, was: seq<Route>, removals: seq<Route>, r: Route)
    requires RemovedOnly(routes, was, removals)
    ensures RemovedOnly(Removed(routes, r.lbPort), was, removals + [r])
  {
    hide At, Removed;
    forall p ensures At(Removed(routes, r.lbPort), p) == if At(removals + [r], p) == [] then At(was, p) else [] {
      AtRemoved(routes, r.lbPort, p);
      AtOneMore(removals, r, p);
    }
  }

  lemma NothingDone(routes: seq<Route>)
    ensures ChangedOnly(routes, routes, []) && RemovedOnly(routes, routes, []) && UnpublishesOnly([], [])
  {}

  method RemoveAll(lb: Balancer, left: seq<Route>) returns (ok: bool, ghost log: seq<Call>)
    modifies lb
    ensures ok <==> NoneFailed(lb.fails, |old(lb.calls)|, |lb.calls|)
    ensures lb.calls == old(lb.calls) + log && UnpublishesOnly(log, left) && (log == [] <==> left == [])
    ensures ok ==> RemovedOnly(lb.routes, old(lb.routes), left)
    ensures log == [] ==> ok && lb.routes == old(lb.routes)
  {
    hide At, Removed, UnpublishesOnly;
    log := [];
    NothingDone(lb.routes);
    for i := 0 to |left|
      invariant lb.calls == old(lb.calls) + log && UnpublishesOnly(log, left[..i]) && (log == [] <==> i == 0)
      invariant RemovedOnly(lb.routes, old(lb.routes), left[..i]) && (i == 0 ==> lb.routes == old(lb.routes))
      invariant NoneFailed(lb.fails, |old(lb.calls)|, |lb.calls|)
    {
      assert left[..i + 1] == left[..i] + [left[i]] && left == left[..i + 1] + left[i + 1..];
      UnpublishOneMore(log, left[..i], left[i]);
      UnpublishesMore(log + [Call.Unpublish(left[i].lbPort)], left[..i + 1], left[i + 1..]);
      RemoveOne(lb.routes, old(lb.routes), left[..i], left[i]);
      var unpublished := lb.Unpublish(left[i].lbPort);
      log := log + [Call.Unpublish(left[i].lbPort)];
      if !unpublished {
        return false, log;
      }
    }
    assert left[..|left|] == left;
    return true, log;
  }

  // ---------- The whole ----------

  /** What a plan carried out leaves on a port. */
  lemma ResultOnPort(e: seq<Route>, d: seq<Route>, create: seq<Route>, change: seq<Route>, left: seq<Route>,
                     result: seq<Route>)
    requires PlannedAt(e, d, create, change, left) && |e| <= 1 && |d| <= 1
    requires var changed := if change == [] then e + create else [change[|change| - 1]];
             result == if left == [] then changed else []
    ensures Alike(result, d) <==> (e != [] && d != [] ==> Agrees(e[0], d[0]))
  {}

  lemma AgreeOnPort(existing: seq<Route>, desired: seq<Route>, p: int)
    requires |At(existing, p)| <= 1 && |At(desired, p)| <= 1
    ensures (At(existing, p) != [] && At(desired, p) != [] ==> Agrees(At(existing, p)[0], At(desired, p)[0])) <==>
            forall e <- existing, d <- desired | e.lbPort == p && d.lbPort == p :: Agrees(e, d)
  {
    hide At, Agrees;
    AtIsThere(existing, p);
    AtIsThere(desired, p);
    forall e <- existing, d <- desired | e.lbPort == p && d.lbPort == p
      ensures e in At(existing, p) && d in At(desired, p)
    {
      AtHolds(existing, e);
      AtHolds(desired, d);
    }
  }

  lemma Result(existing: seq<Route>, desired: seq<Route>, create: seq<Route>, change: seq<Route>, left: seq<Route>,
               changed: seq<Route>, result: seq<Route>)
    requires DistinctPorts(existing) && DistinctPorts(desired) && Planned(existing, desired, create, change, left)
    requires ChangedOnly(changed, existing + create, change) && RemovedOnly(result, changed, left)
    ensures Configured(result, desired) <==> ProtocolsAgree(existing, desired)
  {
    hide At, Agrees, PlannedAt, Alike;
    forall p ensures Alike(At(result, p), At(desired, p)) <==>
                     forall e <- existing, d <- desired | e.lbPort == p && d.lbPort == p :: Agrees(e, d) {
      AtMostOne(existing, p);
      AtMostOne(desired, p);
      AtJoins(existing, create, p);
      assert PlannedAt(At(existing, p), At(desired, p), At(create, p), At(change, p), At(left, p));
      ResultOnPort(At(existing, p), At(desired, p), At(create, p), At(change, p), At(left, p), At(result, p));
      AgreeOnPort(existing, desired, p);
    }
  }

  /** Nothing is planned exactly when everything is as desired. */
  lemma NothingToDo(existing: seq<Route>, desired: seq<Route>, create: seq<Route>, change: seq<Route>, left: seq<Route>)
    requires DistinctPorts(existing) && DistinctPorts(desired) && Planned(existing, desired, create, change, left)
    ensures create == [] && change == [] && left == [] <==> Configured(existing, desired)
  {
    hide At, DistinctPorts;
    forall p ensures At(create, p) == At(change, p) == At(left, p) == [] <==> Alike(At(existing, p), At(desired, p)) {
      AtMostOne(existing, p);
      AtMostOne(desired, p);
      assert PlannedAt(At(existing, p), At(desired, p), At(create, p), At(change, p), At(left, p));
    }
    EmptyEverywhere(create);
    EmptyEverywhere(change);
    EmptyEverywhere(left);
  }

  lemma EmptyEverywhere(routes: seq<Route>)
    ensures routes == [] <==> forall p :: At(routes, p) == []
  {
    if routes != [] {
      AtHolds(routes, routes[0]);
      assert At(routes, routes[0].lbPort) != [];
    }
  }

  /** A route that matches is neither changed nor removed. */
  lemma MatchingIsLeftAlone(existing: seq<Route>, desired: seq<Route>, create: seq<Route>, change: seq<Route>,
                            left: seq<Route>, e: Route, d: Route)
    requires DistinctPorts(existing) && DistinctPorts(desired) && Planned(existing, desired, create, change, left)
    requires e in existing && d in desired && Same(e, d)
    ensures At(change, e.lbPort) == [] && At(left, e.lbPort) == []
  {
    hide At, DistinctPorts;
    var p := e.lbPort;
    AtMostOne(existing, p);
    AtMostOne(desired, p);
    AtHolds(existing, e);
    AtHolds(desired, d);
    assert PlannedAt(At(existing, p), At(desired, p), At(create, p), At(change, p), At(left, p));
    assert At(existing, p) == [e] && At(desired, p) == [d];
  }

  ghost predicate LeavesMatching(calls: seq<Call>, existing: seq<Route>, desired: seq<Route>) {
    forall c <- calls, e <- existing, d <- desired | c.Unpublish? && Same(e, d) :: c.extPort != e.lbPort
  }

  lemma CallsLeaveMatching(existing: seq<Route>, desired: seq<Route>, create: seq<Route>, change: seq<Route>,
                           left: seq<Route>, a: seq<Call>, b: seq<Call>, c: seq<Call>)
    requires DistinctPorts(existing) && DistinctPorts(desired) && Planned(existing, desired, create, change, left)
    requires UnpublishesOnly(a, []) && UnpublishesOnly(b, change) && UnpublishesOnly(c, left)
    ensures LeavesMatching(a + b + c, existing, desired)
  {
    hide Same, DistinctPorts, Planned;
    forall call <- a + b + c, e <- existing, d <- desired | call.Unpublish? && Same(e, d)
      ensures call.extPort != e.lbPort
    {
      MatchingIsLeftAlone(existing, desired, create, change, left, e, d);
    }
  }

  /** Makes the routes of a balancer the desired ones. With one route to a load-balancer port on either side: a success
      leaves exactly the desired routes if and only if the protocols agree wherever a port has both an existing and a
      desired route; a matching route is never unpublished; and there is nothing to call exactly when all is as
      desired. */
  method ConfigureL4(lb: Balancer, desired: seq<Route>, describeFails: bool) returns (ok: bool, ghost log: seq<Call>)
    modifies lb
    ensures lb.calls == old(lb.calls) + log
    ensures ok <==> !describeFails && NoneFailed(lb.fails, |old(lb.calls)|, |lb.calls|)
    ensures describeFails ==> !ok && log == [] && lb.routes == old(lb.routes)
    ensures log == [] ==> lb.routes == old(lb.routes)
    ensures DistinctPorts(old(lb.routes)) && DistinctPorts(desired) ==>
              && (ok ==> (Configured(lb.routes, desired) <==> ProtocolsAgree(old(lb.routes), desired)))
              && LeavesMatching(log, old(lb.routes), desired)
              && (!describeFails ==> (log == [] <==> Configured(old(lb.routes), desired)))
  {
    hide At, DistinctPorts, Planned, UnpublishesOnly, ChangedOnly, RemovedOnly, ProtocolsAgree, Configured,
        LeavesMatching;
    log := [];
    ghost var existing := lb.routes;
    ghost var distinct := DistinctPorts(existing) && DistinctPorts(desired);
    NothingDone(existing);
    if describeFails {
      assert LeavesMatching([], existing, desired) by { NoCalls(existing, desired); }
      return false, log;
    }
    var toCreate, toChange, left := Plan(lb.routes, desired);
    if distinct {
      NothingToDo(existing, desired, toCreate, toChange, left);
    }
    ghost var a, b, c: seq<Call> := [], [], [];
    UnpublishesMore([], [], toChange);
    UnpublishesMore([], [], left);
    assert [] + toChange == toChange && [] + left == left;
    ok, a := CreateAll(lb, toCreate);
    if ok {
      ok, b := ChangeAll(lb, toChange);
      ghost var changed := lb.routes;
      if ok {
        ok, c := RemoveAll(lb, left);
        if ok && distinct {
          Result(existing, desired, toCreate, toChange, left, changed, lb.routes);
        }
      }
    }
    log := a + b + c;
    if distinct {
      CallsLeaveMatching(existing, desired, toCreate, toChange, left, a, b, c);
    }
  }

  lemma NoCalls(existing: seq<Route>, desired: seq<Route>)
    ensures LeavesMatching([], existing, desired)
  {}

  /** When the desired routes are in place, their ports are distinct again. */
  lemma ConfiguredIsDistinct(routes: seq<Route>, desired: seq<Route>)
    requires Configured(routes, desired) && DistinctPorts(desired)
    ensures DistinctPorts(routes)
  {
    hide At;
    forall r <- routes ensures |At(routes, r.lbPort)| <= 1 {
      AtMostOne(desired, r.lbPort);
      assert Alike(At(routes, r.lbPort), At(desired, r.lbPort));
    }
  }

  /** Configuring twice: the second time makes no calls. */
  method ConfigureTwice(lb: Balancer, desired: seq<Route>)
    returns (ok: bool, ghost first: seq<Call>, ghost second: seq<Call>)
    requires DistinctPorts(lb.routes) && DistinctPorts(desired) && ProtocolsAgree(lb.routes, desired)
    modifies lb
    ensures lb.calls == old(lb.calls) + first + second
    ensures ok ==> Configured(lb.routes, desired) && second == []
  {
    second := [];
    ok, first := ConfigureL4(lb, desired, false);
    if ok {
      ConfiguredIsDistinct(lb.routes, desired);
      ok, second := ConfigureL4(lb, desired, false);
    }
  }

  lemma OneRoute(r: Route)
    ensures DistinctPorts([r]) && Removed([r], r.lbPort) == []
  {
    AtOne(r, r.lbPort);
    assert [r][..0] == [];
  }

  /** Changing the protocol of a listener: the new route is published beside the old one, and both are unpublished. */
  lemma ProtocolChangeRemovesBoth(e: Route, d: Route)
    requires e.lbPort == d.lbPort && !Agrees(e, d)
    ensures DistinctPorts([e]) && DistinctPorts([d]) && Planned([e], [d], [d], [], [e])
    ensures Removed([e] + [d], e.lbPort) == [] && !Configured([], [d])
  {
    OneRoute(e);
    OneRoute(d);
    assert ([e] + [d])[..1] == [e];
    hide At, DistinctPorts, Agrees, Removed;
    forall p ensures PlannedAt(At([e], p), At([d], p), At([d], p), At([], p), At([e], p)) {
      AtOne(e, p);
      AtOne(d, p);
      AtNone(p);
    }
    AtOne(d, d.lbPort);
    AtNone(d.lbPort);
    assert !Alike(At([], d.lbPort), At([d], d.lbPort));
  }

  lemma AtNone(p: int)
    ensures At([], p) == []
  {}
}
