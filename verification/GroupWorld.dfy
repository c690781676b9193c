/** A group as the rolling updater finds it: its instances, and the creates and labellings under way, changed at any
    moment by the scaler and by the outside (pkg/controller/group/scaled.go). */
module GroupWorld {
  import opened Wrappers
  import opened GroupOrder
  import opened Sets

  /** Someone who is labelling: the config hash read first, and the instances then found to need a label that have not
      been given it yet. */
  datatype Labelling = Labelling(hash: string, ids: set<string>)

  /** Live instances by ID; creates under way, each with the config hash it read when it began; others who are
      labelling; and the instances that the updater itself is about to label. */
  datatype World = World(
    live: map<string, Description>,
    creating: map<nat, string>,
    labelling: map<nat, Labelling>,
    own: set<string>)

  /** What may happen between two actions of the updater. */
  datatype Change =
    | BeginCreate(token: nat)
    | EndCreate(created: nat, inst: Description)
    | FailCreate(failed: nat)
    | Remove(id: string)
    | ReadSettings(reader: nat)
    | ListBootstraps(lister: nat)
    | PutLabel(labeller: nat, labelled: string)
    | StopLabelling(stopped: nat)
    | PutOwn(mine: string)

  predicate Matches(d: Description, target: string) {
    CONFIG_SHA_TAG in d.tags && d.tags[CONFIG_SHA_TAG] == target
  }

  predicate NeedsLabel(d: Description) {
    CONFIG_SHA_TAG in d.tags && d.tags[CONFIG_SHA_TAG] == BOOTSTRAP
  }

  function Bootstraps(live: map<string, Description>): set<string> {
    set id | id in live && NeedsLabel(live[id])
  }

  function Labelled(d: Description, hash: string): Description {
    d.(tags := d.tags[CONFIG_SHA_TAG := hash])
  }

  /** A label overwrites whatever tag is there. */
  function Put(live: map<string, Description>, id: string, hash: string): map<string, Description> {
    if id in live then live[id := Labelled(live[id], hash)] else live
  }

  function ListedIds(labelling: map<nat, Labelling>): set<string> {
    set t, id | t in labelling && id in labelling[t].ids :: id
  }

  /** IDs in use: a new instance does not get one that is live, or that someone is about to label. */
  function UsedIds(w: World): set<string> {
    w.live.Keys + ListedIds(w.labelling)
  }

  /** Creates and labellings that begin now read the current settings, whose hash is `target`; those under way may have
      read older ones. A labelling reads the settings, then lists, and then labels from that listing, one instance after
      another. A change that does not apply does nothing. */
  function Next(w: World, change: Change, target: string): World {
    match change
    case BeginCreate(t) =>
      if t in w.creating then w else w.(creating := w.creating[t := target])
    case EndCreate(t, inst) =>
      if t in w.creating && inst.id !in UsedIds(w) && Matches(inst, w.creating[t])
      then w.(live := w.live[inst.id := inst], creating := w.creating - {t}) else w
    case FailCreate(t) => w.(creating := w.creating - {t})
    case Remove(id) => w.(live := w.live - {id})
    case ReadSettings(t) =>
      if t in w.labelling then w else w.(labelling := w.labelling[t := Labelling(target, {})])
    case ListBootstraps(t) =>
      if t !in w.labelling then w
      else w.(labelling := w.labelling[t := w.labelling[t].(ids := Bootstraps(w.live))])
    case PutLabel(t, id) =>
      if t !in w.labelling || id !in w.labelling[t].ids then w
      else
        var l := w.labelling[t];
        w.(live := Put(w.live, id, l.hash), labelling := w.labelling[t := l.(ids := l.ids - {id})])
    case StopLabelling(t) => w.(labelling := w.labelling - {t})
    case PutOwn(id) =>
      if id !in w.own then w else w.(live := Put(w.live, id, target), own := w.own - {id})
  }

  function After(w: World, changes: seq<Change>, target: string): World {
    if changes == [] then w else Next(After(w, changes[..|changes| - 1], target), changes[|changes| - 1], target)
  }

  predicate Keyed(live: map<string, Description>) {
    forall id <- live :: live[id].id == id
  }

  function Undesired(live: map<string, Description>, target: string): set<string> {
    set id | id in live && !Matches(live[id], target)
  }

  /** Creates under way that will give an undesired instance. */
  function Stale(creating: map<nat, string>, target: string): set<nat> {
    set t | t in creating && creating[t] != target
  }

  /** Instances that someone who read older settings is about to label. */
  function Pending(labelling: map<nat, Labelling>, target: string): set<string> {
    set t, id | t in labelling && labelling[t].hash != target && id in labelling[t].ids :: id
  }

  /** Instances that are undesired, or will be by such a label. */
  function AtRisk(w: World, target: string): set<string> {
    Undesired(w.live, target) + Pending(w.labelling, target) * w.live.Keys
  }

  /** How many undesired instances there are or will be, apart from some. */
  function Potential(w: World, target: string, apart: set<string>): nat {
    |AtRisk(w, target) - apart| + |Stale(w.creating, target)|
  }

  /** A create or a label on a desired instance that will make one more undesired. */
  predicate Threatened(w: World, target: string) {
    Stale(w.creating, target) != {} || AtRisk(w, target) != Undesired(w.live, target)
  }

  // ---------- No change makes more undesired instances than are at risk ----------

  lemma UndesiredWith(live: map<string, Description>, inst: Description, target: string)
    requires inst.id !in live
    ensures Undesired(live[inst.id := inst], target) ==
              Undesired(live, target) + if Matches(inst, target) then {} else {inst.id}
  {}

  lemma UndesiredWithout(live: map<string, Description>, id: string, target: string)
    ensures Undesired(live - {id}, target) == Undesired(live, target) - {id}
  {}

  lemma UndesiredPut(live: map<string, Description>, id: string, hash: string, target: string)
    ensures Put(live, id, hash).Keys == live.Keys
    ensures Undesired(Put(live, id, hash), target) ==
              if id in live && hash != target then Undesired(live, target) + {id} else Undesired(live, target) - {id}
  {}

  lemma StaleWithout(creating: map<nat, string>, t: nat, target: string)
    ensures Stale(creating - {t}, target) == Stale(creating, target) - {t}
  {}

  lemma BootstrapsAreUndesired(live: map<string, Description>, target: string)
    requires target != BOOTSTRAP
    ensures Bootstraps(live) <= Undesired(live, target)
  {}

  lemma PendingIsListed(labelling: map<nat, Labelling>, target: string)
    ensures Pending(labelling, target) <= ListedIds(labelling)
  {}

  /** Replacing one labelling. */
  lemma PendingWith(labelling: map<nat, Labelling>, t: nat, l: Labelling, target: string)
    ensures Pending(labelling[t := l], target) <=
              Pending(labelling - {t}, target) + if l.hash != target then l.ids else {}
    ensures Pending(labelling - {t}, target) <= Pending(labelling, target)
    ensures t in labelling && labelling[t].hash != target ==> labelling[t].ids <= Pending(labelling, target)
  {
    var more := labelling[t := l];
    forall id | id in Pending(more, target)
      ensures id in Pending(labelling - {t}, target) + if l.hash != target then l.ids else {}
    {
      var u :| u in more && more[u].hash != target && id in more[u].ids;
      if u != t {
        var less := labelling - {t};
        assert u in less && less[u].hash != target && id in less[u].ids;
      }
    }
  }

  lemma AtRiskKeepsPotential(w: World, n: World, target: string, apart: set<string>)
    requires AtRisk(n, target) <= AtRisk(w, target) && Stale(n.creating, target) <= Stale(w.creating, target)
    ensures Potential(n, target, apart) <= Potential(w, target, apart)
  {
    Fewer(AtRisk(n, target) - apart, AtRisk(w, target) - apart);
    Fewer(Stale(n.creating, target), Stale(w.creating, target));
  }

  /** Every change but the end of a create keeps what is at risk within what was. */
  lemma ChangeKeepsRisk(w: World, change: Change, target: string)
    requires target != BOOTSTRAP && !change.EndCreate?
    ensures AtRisk(Next(w, change, target), target) <= AtRisk(w, target)
    ensures Stale(Next(w, change, target).creating, target) <= Stale(w.creating, target)
  {
    hide Undesired, Pending, Put, Bootstraps;
    match change {
      case Remove(id) =>
        UndesiredWithout(w.live, id, target);
      case ReadSettings(t) =>
        PendingWith(w.labelling, t, Labelling(target, {}), target);
      case ListBootstraps(t) =>
        BootstrapsAreUndesired(w.live, target);
        if t in w.labelling {
          PendingWith(w.labelling, t, w.labelling[t].(ids := Bootstraps(w.live)), target);
        }
      case PutLabel(t, id) =>
        if t in w.labelling && id in w.labelling[t].ids {
          var l := w.labelling[t];
          UndesiredPut(w.live, id, l.hash, target);
          PendingWith(w.labelling, t, l.(ids := l.ids - {id}), target);
        }
      case StopLabelling(t) =>
        PendingWith(w.labelling, t, Labelling(target, {}), target);
      case PutOwn(id) =>
        UndesiredPut(w.live, id, target, target);
      case _ =>
    }
  }

  lemma RiskWith(w: World, inst: Description, creating: map<nat, string>, target: string)
    requires inst.id !in UsedIds(w)
    ensures AtRisk(w.(live := w.live[inst.id := inst], creating := creating), target) ==
              AtRisk(w, target) + if Matches(inst, target) then {} else {inst.id}
  {
    hide Undesired, Pending, ListedIds, Matches;
    UndesiredWith(w.live, inst, target);
    PendingIsListed(w.labelling, target);
  }

  lemma UndesiredIsAtRisk(w: World, target: string)
    ensures Undesired(w.live, target) <= AtRisk(w, target)
  {}

  lemma RiskWithout(w: World, id: string, target: string)
    ensures AtRisk(w.(live := w.live - {id}), target) == AtRisk(w, target) - {id}
  {
    hide Undesired, Pending;
    UndesiredWithout(w.live, id, target);
  }

  lemma EndCreateKeepsPotential(w: World, t: nat, inst: Description, target: string, apart: set<string>)
    ensures Potential(Next(w, EndCreate(t, inst), target), target, apart) <= Potential(w, target, apart)
  {
    hide AtRisk, UsedIds;
    if t in w.creating && inst.id !in UsedIds(w) && Matches(inst, w.creating[t]) {
      RiskWith(w, inst, w.creating - {t}, target);
      StaleWithout(w.creating, t, target);
      var r, s := AtRisk(w, target), Stale(w.creating, target);
      if Matches(inst, target) {
        assert s - {t} == s && r + {} == r;
      } else {
        Fewer((r + {inst.id}) - apart, (r - apart) + {inst.id});
      }
    }
  }

  lemma ChangeKeepsPotential(w: World, change: Change, target: string, apart: set<string>)
    requires target != BOOTSTRAP
    ensures Potential(Next(w, change, target), target, apart) <= Potential(w, target, apart)
  {
    hide Next, Potential, AtRisk;
    if change.EndCreate? {
      EndCreateKeepsPotential(w, change.created, change.inst, target, apart);
    } else {
      ChangeKeepsRisk(w, change, target);
      AtRiskKeepsPotential(w, Next(w, change, target), target, apart);
    }
  }

  lemma ChangeKeepsKeyed(w: World, change: Change, target: string)
    requires Keyed(w.live)
    ensures Keyed(Next(w, change, target).live)
  {
    hide UsedIds, Bootstraps;
  }

  /** From one world to another there are no more undesired instances, whichever are left aside. */
  ghost predicate NoWorse(w: World, after: World, target: string) {
    && (Keyed(w.live) ==> Keyed(after.live))
    && forall apart: set<string> :: Potential(after, target, apart) <= Potential(w, target, apart)
  }

  /** Every interleaving, by induction over the changes. */
  lemma {:induction false} ChangesKeepPotential(w: World, changes: seq<Change>, target: string)
    requires target != BOOTSTRAP
    ensures NoWorse(w, After(w, changes, target), target)
  {
    hide Next, Potential, Keyed;
    if changes != [] {
      var init, last := changes[..|changes| - 1], changes[|changes| - 1];
      ChangesKeepPotential(w, init, target);
      var before := After(w, init, target);
      if Keyed(before.live) {
        ChangeKeepsKeyed(before, last, target);
      }
      forall apart: set<string>
        ensures Potential(After(w, changes, target), target, apart) <= Potential(w, target, apart)
      {
        ChangeKeepsPotential(before, last, target, apart);
      }
    }
  }

  lemma NoWorseChains(a: World, b: World, c: World, target: string)
    requires NoWorse(a, b, target) && NoWorse(b, c, target)
    ensures NoWorse(a, c, target)
  {
    hide Potential;
    forall apart: set<string> ensures Potential(c, target, apart) <= Potential(a, target, apart) {
      assert Potential(b, target, apart) <= Potential(a, target, apart);
    }
  }

  /** How many more there will be than there are; none exactly in worlds that are not threatened. */
  function Threats(w: World, target: string): (n: int)
  {
    Potential(w, target, {}) - |Undesired(w.live, target)|
  }

  lemma ThreatsExactly(w: World, target: string)
    ensures Threats(w, target) >= 0 && (Threats(w, target) == 0 <==> !Threatened(w, target))
  {
    hide Undesired, Pending;
    var u, r := Undesired(w.live, target), AtRisk(w, target);
    assert r - {} == r;
    Fewer(u, r);
    if |r| == |u| {
      SameSize(u, r);
    }
  }

  /** Where nothing threatens, no interleaving makes the number of undesired instances grow. */
  lemma UndesiredNeverGrows(w: World, changes: seq<Change>, target: string)
    requires target != BOOTSTRAP && !Threatened(w, target)
    ensures |Undesired(After(w, changes, target).live, target)| <= |Undesired(w.live, target)|
  {
    hide Undesired, Pending, After, AtRisk, Stale;
    ChangesKeepPotential(w, changes, target);
    var after := After(w, changes, target);
    assert Potential(after, target, {}) <= Potential(w, target, {});
    ThreatsExactly(w, target);
    ThreatsExactly(after, target);
  }

  lemma StaleCreateGrows(w: World, t: nat, id: string, target: string)
    requires t in Stale(w.creating, target) && id !in UsedIds(w)
    ensures var inst := Description(id, None, map[CONFIG_SHA_TAG := w.creating[t]]);
            Undesired(Next(w, EndCreate(t, inst), target).live, target) == Undesired(w.live, target) + {id}
            && id !in Undesired(w.live, target)
  {
    hide ListedIds;
    UndesiredWith(w.live, Description(id, None, map[CONFIG_SHA_TAG := w.creating[t]]), target);
  }

  /** A label by someone who read older settings overwrites a newer one. The group is as large as it was, with one
      desired instance less. */
  lemma StaleLabelGrows(w: World, t: nat, id: string, target: string)
    requires t in w.labelling && w.labelling[t].hash != target && id in w.labelling[t].ids
    requires id in w.live && Matches(w.live[id], target)
    ensures var n := Next(w, PutLabel(t, id), target);
            && Undesired(n.live, target) == Undesired(w.live, target) + {id} && id !in Undesired(w.live, target)
            && n.live.Keys == w.live.Keys
  {
    UndesiredPut(w.live, id, w.labelling[t].hash, target);
  }

  /** Some interleaving makes the number grow if and only if a create that read older settings is under way, or a label
      by someone who read them is about to be put on a desired instance. */
  lemma UndesiredCanGrow(w: World, target: string, id: string)
    requires target != BOOTSTRAP && id !in UsedIds(w)
    ensures Threatened(w, target) <==>
              exists changes :: |Undesired(After(w, changes, target).live, target)| > |Undesired(w.live, target)|
  {
    if Stale(w.creating, target) != {} {
      var t :| t in Stale(w.creating, target);
      StaleCreateGrows(w, t, id, target);
      Grows(w, EndCreate(t, Description(id, None, map[CONFIG_SHA_TAG := w.creating[t]])), id, target);
    } else if AtRisk(w, target) != Undesired(w.live, target) {
      var x :| x in Pending(w.labelling, target) && x in w.live && x !in Undesired(w.live, target);
      var t :| t in w.labelling && w.labelling[t].hash != target && x in w.labelling[t].ids;
      StaleLabelGrows(w, t, x, target);
      Grows(w, PutLabel(t, x), x, target);
    } else {
      forall changes ensures |Undesired(After(w, changes, target).live, target)| <= |Undesired(w.live, target)| {
        UndesiredNeverGrows(w, changes, target);
      }
    }
  }

  lemma Grows(w: World, change: Change, id: string, target: string)
    requires Undesired(Next(w, change, target).live, target) == Undesired(w.live, target) + {id}
    requires id !in Undesired(w.live, target)
    ensures exists changes :: |Undesired(After(w, changes, target).live, target)| > |Undesired(w.live, target)|
  {
    hide Next, Undesired;
    assert [change][..0] == [];
    assert After(w, [change], target) == Next(w, change, target);
  }

  /** Once an undesired instance is removed there is one less, whatever happened between seeing and removing it. */
  lemma RemovalLowersPotential(seen: World, now: World, id: string, target: string)
    requires id in Undesired(seen.live, target) && NoWorse(seen, now, target)
    ensures Potential(Next(now, Remove(id), target), target, {}) + 1 <= Potential(seen, target, {})
  {
    hide AtRisk, Undesired;
    UndesiredIsAtRisk(seen, target);
    var r, seenR := AtRisk(now, target), AtRisk(seen, target);
    RiskWithout(now, id, target);
    assert Potential(now, target, {id}) <= Potential(seen, target, {id});
    assert (r - {id}) - {} == r - {id} && seenR - {} == seenR;
  }

  // ---------- What the plugins are asked ----------

  /** A logical ID in the tags fills the field. */
  function Normal(d: Description): Description {
    if LOGICAL_ID_TAG in d.tags && d.logicalID.None? then d.(logicalID := Some(d.tags[LOGICAL_ID_TAG])) else d
  }

  /** After that, an instance is self in the same cases, and self always has the field. */
  lemma NormalKeepsSelf(d: Description, self: Option<string>)
    ensures IsSelf(Normal(d), self) <==> IsSelf(d, self)
    ensures IsSelf(d, self) ==> Normal(d).logicalID.Some?
  {}

  /** A listing in some order. */
  predicate Lists(list: seq<Description>, live: map<string, Description>) {
    && Distinct(list) && Ids(list) == live.Keys
    && forall d <- list :: d.id in live && d == Normal(live[d.id])
  }

  datatype Health = Unknown | Healthy | Unhealthy

  /** What the environment does around one call of the updater: what changes before it, between its first listing and
      its labelling, while it labels, and before it lists again; which calls to plugins fail; what they answer; the
      clock; and whether the user has stopped the update. */
  datatype Env = Env(
    stop: bool, before: seq<Change>, listFails: bool,
    amid: seq<Change>, within: seq<Change>, labelFails: bool, after: seq<Change>, relistFails: bool,
    health: map<string, Health>, now: int, drainFails: bool, destroyFails: bool)

  predicate SomeNeedLabel(live: map<string, Description>) {
    exists id <- live :: NeedsLabel(live[id])
  }

  /** The labels that the updater has still to put are put. */
  function PutRest(w: World, target: string): World {
    w.(live := map id | id in w.live :: if id in w.own then Labelled(w.live[id], target) else w.live[id], own := {})
  }

  /** The updater labels from its own listing, with changes in between, some of which are its own labels; it may fail
      with some of them put and others not. */
  function OwnLabelling(w: World, env: Env, target: string): World {
    var running := After(w.(own := Bootstraps(w.live)), env.within, target);
    if env.labelFails then running.(own := {}) else PutRest(running, target)
  }

  /** The world that a listing sees, after putting labels where some are missing. */
  function Listed(w: World, env: Env, target: string): World {
    var first := After(w, env.before, target);
    if env.listFails || !SomeNeedLabel(first.live) then first
    else
      var labelled := OwnLabelling(After(first, env.amid, target), env, target);
      if env.labelFails then labelled else After(labelled, env.after, target)
  }

  predicate ListingFails(w: World, env: Env, target: string) {
    env.listFails || (SomeNeedLabel(After(w, env.before, target).live) && (env.labelFails || env.relistFails))
  }

  lemma OwnDoesNotMatter(w: World, own: set<string>, target: string)
    ensures NoWorse(w, w.(own := own), target)
  {
    forall apart: set<string> ensures Potential(w.(own := own), target, apart) == Potential(w, target, apart) {
      assert AtRisk(w.(own := own), target) == AtRisk(w, target);
    }
  }

  lemma RestIsNoWorse(w: World, target: string)
    ensures NoWorse(w, PutRest(w, target), target)
  {
    var n := PutRest(w, target);
    assert Undesired(n.live, target) <= Undesired(w.live, target);
    forall apart: set<string> ensures Potential(n, target, apart) <= Potential(w, target, apart) {
      AtRiskKeepsPotential(w, n, target, apart);
    }
  }

  lemma LabellingIsNoWorse(w: World, env: Env, target: string)
    requires target != BOOTSTRAP
    ensures NoWorse(w, OwnLabelling(w, env, target), target)
  {
    hide NoWorse, PutRest, Bootstraps;
    var begun := w.(own := Bootstraps(w.live));
    var running := After(begun, env.within, target);
    OwnDoesNotMatter(w, Bootstraps(w.live), target);
    ChangesKeepPotential(begun, env.within, target);
    NoWorseChains(w, begun, running, target);
    OwnDoesNotMatter(running, {}, target);
    RestIsNoWorse(running, target);
    if env.labelFails {
      NoWorseChains(w, running, running.(own := {}), target);
    } else {
      NoWorseChains(w, running, PutRest(running, target), target);
    }
  }

  lemma ListingIsNoWorse(w: World, env: Env, target: string)
    requires target != BOOTSTRAP
    ensures NoWorse(w, Listed(w, env, target), target)
  {
    hide NoWorse, OwnLabelling;
    var first := After(w, env.before, target);
    ChangesKeepPotential(w, env.before, target);
    var middle := After(first, env.amid, target);
    ChangesKeepPotential(first, env.amid, target);
    NoWorseChains(w, first, middle, target);
    var labelled := OwnLabelling(middle, env, target);
    LabellingIsNoWorse(middle, env, target);
    NoWorseChains(w, middle, labelled, target);
    ChangesKeepPotential(labelled, env.after, target);
    NoWorseChains(w, labelled, After(labelled, env.after, target), target);
  }

  lemma PuttingOne(w: World, id: string, target: string)
    requires id in w.own
    ensures PutRest(Next(w, PutOwn(id), target), target) == PutRest(w, target)
  {}

  lemma NothingToPut(w: World, target: string)
    requires w.own == {}
    ensures PutRest(w, target) == w
  {
    assert PutRest(w, target).live == w.live;
  }

  class Scaled {
    const self: Option<string>
    const target: string
    const skipDrain: bool
    var world: World
    /** Calls of the flavor plugin's Drain and of the instance plugin's Destroy. */
    var drains: seq<Description>
    var destroys: seq<Description>

    ghost predicate Valid()
      reads this
    {
      target != BOOTSTRAP && Keyed(world.live)
    }

    method List() returns (list: seq<Description>)
      requires Valid()
      ensures Lists(list, world.live)
    {
      hide Distinct, Ids;
      list := [];
      NoneIsDistinct();
      var left := world.live.Keys;
      while left != {}
        invariant left <= world.live.Keys && Ids(list) == world.live.Keys - left && Distinct(list)
        invariant forall d <- list :: d.id in world.live && d == Normal(world.live[d.id])
        decreases |left|
      {
        var id := Pick(left);
        left := left - {id};
        var d := Normal(world.live[id]);
        DistinctAppend(list, d);
        list := list + [d];
      }
    }

    /** Lists again, and labels from that listing. */
    method Label(env: Env) returns (ok: bool)
      requires Valid()
      modifies `world
      ensures Valid() && world == OwnLabelling(old(world), env, target) && ok == !env.labelFails
    {
      hide PutRest, Next, NoWorse;
      LabellingIsNoWorse(world, env, target);
      KeyedAfter(world, OwnLabelling(world, env, target), target);
      ghost var all := OwnLabelling(world, env, target);
      world := world.(own := Bootstraps(world.live));
      world := After(world, env.within, target);
      if env.labelFails {
        world := world.(own := {});
        return false;
      }
      while world.own != {}
        invariant PutRest(world, target) == all
        decreases |world.own|
      {
        var id := Pick(world.own);
        PuttingOne(world, id, target);
        OneLess(world, id, target);
        world := Next(world, PutOwn(id), target);
      }
      NothingToPut(world, target);
      return true;
    }

    method LabelAndList(env: Env) returns (list: Option<seq<Description>>)
      requires Valid()
      modifies `world
      ensures Valid() && world == Listed(old(world), env, target)
      ensures list.None? <==> ListingFails(old(world), env, target)
      ensures list.Some? ==> Lists(list.value, world.live)
    {
      hide OwnLabelling, Lists;
      ChangesKeepPotential(world, env.before, target);
      world := After(world, env.before, target);
      if env.listFails {
        return None;
      }
      var found := List();
      NeedsLabelSeen(found, world.live);
      if !(exists d <- found :: NeedsLabel(d)) {
        return Some(found);
      }
      ChangesKeepPotential(world, env.amid, target);
      world := After(world, env.amid, target);
      var ok := Label(env);
      if !ok {
        return None;
      }
      ChangesKeepPotential(world, env.after, target);
      world := After(world, env.after, target);
      if env.relistFails {
        return None;
      }
      found := List();
      return Some(found);
    }

    /** Drain, unless a rolling update skips it, and then destroy, unless a rolling update has come to self. A failed
        drain only stops a rolling update. */
    method Destroy(inst: Description, rolling: bool, env: Env) returns (ok: bool)
      requires Valid()
      modifies this
      ensures Valid()
      ensures var drain := !(rolling && skipDrain);
              var kept := rolling && ((drain && env.drainFails) || IsSelf(inst, self));
              && drains == old(drains) + (if drain then [inst] else [])
              && destroys == old(destroys) + (if kept then [] else [inst])
              && ok == (if kept then !(drain && env.drainFails) else !env.destroyFails)
              && world == (if kept then old(world)
                           else if env.destroyFails then After(old(world), env.before, target)
                           else Next(After(old(world), env.before, target), Remove(inst.id), target))
    {
      if !(rolling && skipDrain) {
        drains := drains + [inst];
        if env.drainFails && rolling {
          return false;
        }
      }
      if rolling && IsSelf(inst, self) {
        return true;
      }
      destroys := destroys + [inst];
      ChangesKeepPotential(world, env.before, target);
      world := After(world, env.before, target);
      if env.destroyFails {
        return false;
      }
      world := Next(world, Remove(inst.id), target);
      return true;
    }
  }

  lemma KeyedAfter(w: World, after: World, target: string)
    requires NoWorse(w, after, target) && Keyed(w.live)
    ensures Keyed(after.live)
  {}

  lemma OneLess(w: World, id: string, target: string)
    requires id in w.own
    ensures |Next(w, PutOwn(id), target).own| < |w.own|
  {}

  lemma NoWorseThanItself(w: World, target: string)
    ensures NoWorse(w, w, target)
  {}

  lemma NeedsLabelSeen(list: seq<Description>, live: map<string, Description>)
    requires Lists(list, live)
    ensures (exists d <- list :: NeedsLabel(d)) <==> SomeNeedLabel(live)
  {
    forall id | id in live && NeedsLabel(live[id]) ensures exists d <- list :: NeedsLabel(d) {
      assert id in Ids(list);
      var d :| d in list && d.id == id;
      assert d == Normal(live[id]);
    }
  }
}
