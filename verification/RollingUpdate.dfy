/** The rolling update of a group (pkg/controller/group/rollingupdate.go). */
module RollingUpdate {
  import opened Wrappers
  import opened GroupOrder
  import opened GroupWorld
  import opened Sets

  // ---------- Desired and undesired ----------

  method DesiredAndUndesired(instances: seq<Description>, target: string)
    returns (desired: seq<Description>, undesired: seq<Description>)
    ensures multiset(desired) + multiset(undesired) == multiset(instances)
    ensures (forall d <- desired :: Matches(d, target)) && (forall d <- undesired :: !Matches(d, target))
  {
    desired, undesired := [], [];
    for i := 0 to |instances|
      invariant multiset(desired) + multiset(undesired) == multiset(instances[..i])
      invariant (forall d <- desired :: Matches(d, target)) && (forall d <- undesired :: !Matches(d, target))
    {
      assert instances[..i + 1] == instances[..i] + [instances[i]];
      if Matches(instances[i], target) {
        desired := desired + [instances[i]];
      } else {
        undesired := undesired + [instances[i]];
      }
    }
    assert instances == instances[..|instances|];
  }

  /** Of a listing, the split is that of the live instances. */
  lemma SplitOfListing(list: seq<Description>, live: map<string, Description>, target: string,
                       desired: seq<Description>, undesired: seq<Description>)
    requires Lists(list, live) && multiset(desired) + multiset(undesired) == multiset(list)
    requires (forall d <- desired :: Matches(d, target)) && (forall d <- undesired :: !Matches(d, target))
    ensures |undesired| == |Undesired(live, target)| && |desired| == |live| - |Undesired(live, target)|
    ensures Ids(undesired) == Undesired(live, target)
    ensures forall d <- undesired :: d in list
    ensures Distinct(desired) && Ids(desired) == live.Keys - Undesired(live, target)
  {
    var u := Undesired(live, target);
    PartOfListing(list, live, target, desired, undesired);
    DistinctIds(list);
    DistinctIds(desired);
    DistinctIds(undesired);
    assert |list| == |desired| + |undesired| by {
      assert |multiset(list)| == |multiset(desired)| + |multiset(undesired)|;
    }
    assert Ids(desired) + Ids(undesired) == live.Keys;
    assert live.Keys - u == Ids(desired);
    assert |live.Keys| == |Ids(desired)| + |Ids(undesired)|;
  }

  lemma PartOfListing(list: seq<Description>, live: map<string, Description>, target: string,
                      desired: seq<Description>, undesired: seq<Description>)
    requires Lists(list, live) && multiset(desired) + multiset(undesired) == multiset(list)
    requires (forall d <- desired :: Matches(d, target)) && (forall d <- undesired :: !Matches(d, target))
    ensures Ids(undesired) == Undesired(live, target)
    ensures Ids(desired) == live.Keys - Undesired(live, target)
    ensures forall d <- undesired :: d in list
  {
    forall d ensures d in list <==> d in desired || d in undesired {
      assert d in multiset(list) <==> d in multiset(desired) + multiset(undesired);
    }
    forall id | id in live
      ensures id in Ids(undesired) <==> !Matches(live[id], target)
      ensures id in Ids(desired) <==> Matches(live[id], target)
    {
      assert id in Ids(list);
      var d :| d in list && d.id == id;
      assert d == Normal(live[id]);
    }
  }

  // ---------- Waiting until quiesced ----------

  datatype Updating = Updating(count: int, duration: int)

  /** One poll that could list the group: how many updated instances were healthy, and when. */
  datatype Poll = Poll(healthy: nat, now: int)

  predicate Enough(p: Poll, expected: int) {
    p.healthy >= expected
  }

  /** How many of the last polls, without interruption, saw enough healthy instances. */
  function Streak(polls: seq<Poll>, expected: int): (n: nat)
    ensures n <= |polls|
  {
    if polls == [] || !Enough(polls[|polls| - 1], expected) then 0 else Streak(polls[..|polls| - 1], expected) + 1
  }

  /** The last poll ends the wait. */
  predicate Quiet(polls: seq<Poll>, updating: Updating, expected: int) {
    && polls != [] && Enough(polls[|polls| - 1], expected)
    && (expected <= 0
        || if updating.count > 0 then Streak(polls, expected) >= updating.count
           else updating.duration > 0 ==>
             polls[|polls| - 1].now - polls[|polls| - Streak(polls, expected)].now >= updating.duration)
  }

  lemma {:induction false} StreakIsMaximal(polls: seq<Poll>, expected: int)
    ensures var n := Streak(polls, expected);
            && (forall i :: |polls| - n <= i < |polls| ==> Enough(polls[i], expected))
            && (n < |polls| ==> !Enough(polls[|polls| - n - 1], expected))
  {
    if polls != [] && Enough(polls[|polls| - 1], expected) {
      StreakIsMaximal(polls[..|polls| - 1], expected);
    }
  }

  /** By count: the last `count` polls, all of them, saw enough. */
  lemma QuietByCount(polls: seq<Poll>, updating: Updating, expected: int)
    requires expected > 0 && updating.count > 0
    ensures Quiet(polls, updating, expected) <==>
              |polls| >= updating.count && forall i :: |polls| - updating.count <= i < |polls| ==>
                  Enough(polls[i], expected)
  {
    StreakIsMaximal(polls, expected);
    if |polls| >= updating.count && !Quiet(polls, updating, expected) {
      var n := Streak(polls, expected);
      assert |polls| - updating.count <= |polls| - n - 1 < |polls|;
    }
  }

  predicate ClockRunsForward(polls: seq<Poll>) {
    forall i, j :: 0 <= i <= j < |polls| ==> polls[i].now <= polls[j].now
  }

  /** By duration: some uninterrupted span of polls that saw enough is that long. */
  lemma QuietByDuration(polls: seq<Poll>, updating: Updating, expected: int)
    requires expected > 0 && updating.count <= 0 && updating.duration > 0 && ClockRunsForward(polls)
    ensures Quiet(polls, updating, expected) <==>
              exists j :: && 0 <= j < |polls| && polls[|polls| - 1].now - polls[j].now >= updating.duration
                          && forall i :: j <= i < |polls| ==> Enough(polls[i], expected)
  {
    StreakIsMaximal(polls, expected);
    var n := Streak(polls, expected);
    if Quiet(polls, updating, expected) {
      assert polls[|polls| - 1].now - polls[|polls| - n].now >= updating.duration;
    }
    if j :| 0 <= j < |polls| && polls[|polls| - 1].now - polls[j].now >= updating.duration
            && forall i :: j <= i < |polls| ==> Enough(polls[i], expected) {
      assert n < |polls| ==> !(j <= |polls| - n - 1);
      assert Enough(polls[|polls| - 1], expected);
      assert polls[|polls| - n].now <= polls[j].now;
    }
  }

  class UpdatingCount {
    var healthyTs: Option<int>
    var healthyCount: Option<int>

    constructor ()
      ensures healthyTs == None && healthyCount == None
    {
      healthyTs, healthyCount := None, None;
    }

    /** The tally of the streak that `polls` ends in. */
    ghost predicate Tallies(polls: seq<Poll>, updating: Updating, expected: int)
      reads this
    {
      expected > 0 ==>
        var n := Streak(polls, expected);
        && (updating.count > 0 ==> healthyCount == if n == 0 then None else Some(n))
        && (updating.count <= 0 && updating.duration > 0 ==>
              healthyTs == if n == 0 then None else Some(polls[|polls| - n].now))
    }

    /** Called after a poll that saw enough. */
    method ExceedsHealthyThreshold(updating: Updating, expected: int, now: int, ghost polls: seq<Poll>)
      returns (done: bool)
      requires polls != [] && Enough(polls[|polls| - 1], expected) && now == polls[|polls| - 1].now
      requires Tallies(polls[..|polls| - 1], updating, expected)
      modifies this
      ensures done <==> Quiet(polls, updating, expected)
      ensures Tallies(polls, updating, expected)
    {
      if expected <= 0 {
        return true;
      }
      if updating.count > 0 {
        var count := 1;
        if healthyCount.Some? {
          count := healthyCount.value + 1;
        }
        healthyCount := Some(count);
        if count < updating.count {
          return false;
        }
        return true;
      }
      if updating.duration > 0 {
        if healthyTs.None? {
          healthyTs := Some(now);
        } else {
          var delta := now - healthyTs.value;
          if delta >= updating.duration {
            return true;
          }
        }
        return false;
      }
      return true;
    }
  }

  datatype WaitResult = Quiesced | ListFailed | Halted | StillWaiting

  /** The updated instances that are healthy. */
  function HealthyIn(live: map<string, Description>, target: string, health: map<string, Health>): set<string> {
    set id | id in live && Matches(live[id], target) && id in health && health[id] == Healthy
  }

  method CountHealthy(matching: seq<Description>, health: map<string, Health>) returns (n: nat)
    requires Distinct(matching)
    ensures n == |set d | d in matching && d.id in health && health[d.id] == Healthy :: d.id|
  {
    n := 0;
    ghost var ids: set<string> := {};
    for i := 0 to |matching|
      invariant n == |ids| && ids == set d | d in matching[..i] && d.id in health && health[d.id] == Healthy :: d.id
    {
      var h := if matching[i].id in health then health[matching[i].id] else Unknown;
      assert matching[..i + 1] == matching[..i] + [matching[i]];
      if h == Healthy {
        n := n + 1;
        ids := ids + {matching[i].id};
      }
    }
    assert matching == matching[..|matching|];
  }

  /** One tick: how many updated instances are healthy, if the group can be listed. */
  method PollOnce(scaled: Scaled, e: Env) returns (numHealthy: Option<nat>)
    requires scaled.Valid()
    modifies scaled`world
    ensures scaled.Valid() && scaled.world == Listed(old(scaled.world), e, scaled.target)
    ensures numHealthy.None? <==> ListingFails(old(scaled.world), e, scaled.target)
    ensures numHealthy.Some? ==> numHealthy.value == |HealthyIn(scaled.world.live, scaled.target, e.health)|
  {
    var listing := scaled.LabelAndList(e);
    if listing.None? {
      return None;
    }
    var matching, rest := DesiredAndUndesired(listing.value, scaled.target);
    SplitOfListing(listing.value, scaled.world.live, scaled.target, matching, rest);
    var n := CountHealthy(matching, e.health);
    HealthyOfListing(scaled.world.live, scaled.target, matching, e.health);
    return Some(n);
  }

  /** Each poll lists the world as it has become since the one before. */
  ghost predicate Observed(start: World, polls: seq<Poll>, seen: seq<World>, env: seq<Env>, target: string) {
    && |polls| + 1 == |seen| <= |env| + 1 && seen[0] == start
    && forall i :: 0 <= i < |polls| ==>
         && seen[i + 1] == Listed(seen[i], env[i], target) && !env[i].stop && !ListingFails(seen[i], env[i], target)
         && polls[i] == Poll(|HealthyIn(seen[i + 1].live, target, env[i].health)|, env[i].now)
  }

  lemma ObserveOneMore(start: World, polls: seq<Poll>, seen: seq<World>, env: seq<Env>, target: string, w: World,
                       p: Poll)
    requires Observed(start, polls, seen, env, target) && |polls| < |env|
    requires var e := env[|polls|];
             && w == Listed(seen[|polls|], e, target) && !e.stop && !ListingFails(seen[|polls|], e, target)
             && p == Poll(|HealthyIn(w.live, target, e.health)|, e.now)
    ensures Observed(start, polls + [p], seen + [w], env, target)
  {
    hide Listed, ListingFails, HealthyIn;
  }

  ghost predicate NeverQuiet(polls: seq<Poll>, updating: Updating, expected: int) {
    forall k :: 0 <= k <= |polls| ==> !Quiet(polls[..k], updating, expected)
  }

  lemma OneMorePoll(polls: seq<Poll>, p: Poll, updating: Updating, expected: int)
    requires NeverQuiet(polls, updating, expected)
    ensures !Quiet(polls + [p], updating, expected) ==> NeverQuiet(polls + [p], updating, expected)
    ensures !Enough(p, expected) ==> !Quiet(polls + [p], updating, expected) && Streak(polls + [p], expected) == 0
    ensures (polls + [p])[..|polls|] == polls
  {
    var more := polls + [p];
    assert forall k :: 0 <= k <= |polls| ==> more[..k] == polls[..k];
    assert more[..|more|] == more;
  }

  /** Polls until quiesced; env[i] is what happens around the i-th tick. `seen` are the world at the start and those
      listed. */
  method WaitUntilQuiesced(scaled: Scaled, updating: Updating, expected: int, env: seq<Env>)
    returns (r: WaitResult, ghost polls: seq<Poll>, used: nat, ghost seen: seq<World>)
    requires scaled.Valid()
    modifies scaled`world
    ensures scaled.Valid() && NoWorse(old(scaled.world), scaled.world, scaled.target)
    ensures |polls| + 1 == |seen| && Observed(old(scaled.world), polls, seen, env, scaled.target)
    ensures r == Quiesced ==> polls != [] && Quiet(polls, updating, expected)
                              && NeverQuiet(polls[..|polls| - 1], updating, expected)
    ensures r != Quiesced ==> NeverQuiet(polls, updating, expected)
    ensures |polls| <= used <= |env|
    ensures match r
            case Quiesced => used == |polls|
            case StillWaiting => used == |polls| == |env|
            case Halted => used == |polls| + 1 && env[used - 1].stop
            case ListFailed => used == |polls| + 1 && ListingFails(seen[|polls|], env[used - 1], scaled.target)
  {
    hide Quiet, NoWorse, HealthyIn, Keyed, Listed, ListingFails, Observed;
    var counts := new UpdatingCount();
    polls, seen, used := [], [scaled.world], 0;
    NoWorseThanItself(scaled.world, scaled.target);
    NothingIsQuiet(updating, expected);
    assert Observed(scaled.world, polls, seen, env, scaled.target) by {
      NothingObserved(scaled.world, env, scaled.target);
    }
    while used < |env|
      invariant scaled.Valid() && NoWorse(old(scaled.world), scaled.world, scaled.target)
      invariant |polls| == used <= |env| && fresh(counts)
      invariant |polls| + 1 == |seen| && seen[|polls|] == scaled.world
      invariant Observed(old(scaled.world), polls, seen, env, scaled.target) && NeverQuiet(polls, updating, expected)
      invariant counts.Tallies(polls, updating, expected)
    {
      var e := env[used];
      used := used + 1;
      if e.stop {
        return Halted, polls, used, seen;
      }
      ghost var before := scaled.world;
      var numHealthy := PollOnce(scaled, e);
      ListingIsNoWorse(before, e, scaled.target);
      NoWorseChains(old(scaled.world), before, scaled.world, scaled.target);
      if numHealthy.None? {
        return ListFailed, polls, used, seen;
      }
      OneMorePoll(polls, Poll(numHealthy.value, e.now), updating, expected);
      ObserveOneMore(old(scaled.world), polls, seen, env, scaled.target, scaled.world, Poll(numHealthy.value, e.now));
      polls, seen := polls + [Poll(numHealthy.value, e.now)], seen + [scaled.world];
      if numHealthy.value >= expected {
        var done := counts.ExceedsHealthyThreshold(updating, expected, e.now, polls);
        if done {
          return Quiesced, polls, used, seen;
        }
      } else {
        counts := new UpdatingCount();
      }
    }
    return StillWaiting, polls, used, seen;
  }

  lemma NothingObserved(w: World, env: seq<Env>, target: string)
    ensures Observed(w, [], [w], env, target)
  {}

  lemma NothingIsQuiet(updating: Updating, expected: int)
    ensures NeverQuiet([], updating, expected)
  {}

  lemma HealthyOfListing(live: map<string, Description>, target: string, matching: seq<Description>,
                         health: map<string, Health>)
    requires Ids(matching) == live.Keys - Undesired(live, target)
    ensures (set d | d in matching && d.id in health && health[d.id] == Healthy :: d.id) ==
              HealthyIn(live, target, health)
  {
    forall id | id in HealthyIn(live, target, health)
      ensures id in (set d | d in matching && d.id in health && health[d.id] == Healthy :: d.id)
    {
      assert id in Ids(matching);
      var d :| d in matching && d.id == id;
    }
    forall d | d in matching ensures d.id in live && Matches(live[d.id], target) {
      assert d.id in Ids(matching);
    }
  }

  // ---------- The update ----------

  datatype Outcome = Updated | OnlySelfLeft(logicalID: string) | Failed | Unfinished

  /** One wait: what it waits for, the world and the place in the script where it starts, and what it sees. */
  datatype Awaited = Awaited(expected: int, world: World, from: nat, polls: seq<Poll>, seen: seq<World>)

  /** Lists and sorts: the undesired instance to destroy next, the first in order, if there is one. It is self only if
      all are. */
  method FirstUndesired(scaled: Scaled, e: Env) returns (r: Result<Option<Description>, ()>)
    requires scaled.Valid()
    modifies scaled`world
    ensures scaled.Valid() && scaled.world == Listed(old(scaled.world), e, scaled.target)
    ensures r.Failure? <==> ListingFails(old(scaled.world), e, scaled.target)
    ensures r.Success? ==>
              var u := Undesired(scaled.world.live, scaled.target);
              match r.value
              case None => u == {}
              case Some(d) =>
                && d.id in u && !Matches(d, scaled.target)
                && (forall id <- u :: !Less(Normal(scaled.world.live[id]), d, scaled.self))
                && (IsSelf(d, scaled.self) ==>
                      d.logicalID.Some? && forall id <- u :: IsSelf(scaled.world.live[id], scaled.self))
  {
    var listing := scaled.LabelAndList(e);
    if listing.None? {
      return Failure(());
    }
    var rest, undesired := DesiredAndUndesired(listing.value, scaled.target);
    SplitOfListing(listing.value, scaled.world.live, scaled.target, rest, undesired);
    if |undesired| == 0 {
      return Success(None);
    }
    var sorted := SortByID(undesired, scaled.self);
    SortedUndesired(listing.value, scaled.world.live, scaled.target, scaled.self, undesired, sorted);
    return Success(Some(sorted[0]));
  }

  /** The desired instances of the first listing. */
  method CountDesired(scaled: Scaled, e: Env) returns (n: Option<nat>)
    requires scaled.Valid()
    modifies scaled`world
    ensures scaled.Valid() && scaled.world == Listed(old(scaled.world), e, scaled.target)
    ensures n.None? <==> ListingFails(old(scaled.world), e, scaled.target)
    ensures n.Some? ==> n.value == |scaled.world.live| - |Undesired(scaled.world.live, scaled.target)|
  {
    var listing := scaled.LabelAndList(e);
    if listing.None? {
      return None;
    }
    var desired, undesired := DesiredAndUndesired(listing.value, scaled.target);
    SplitOfListing(listing.value, scaled.world.live, scaled.target, desired, undesired);
    return Some(|desired|);
  }

  lemma SortedUndesired(list: seq<Description>, live: map<string, Description>, target: string, self: Option<string>,
                        undesired: seq<Description>, sorted: seq<Description>)
    requires Lists(list, live) && undesired != [] && (forall d <- undesired :: d in list && !Matches(d, target))
    requires Ids(undesired) == Undesired(live, target)
    requires multiset(sorted) == multiset(undesired) && InOrder(sorted, self)
    ensures sorted != []
    ensures var d := sorted[0];
            && d.id in Undesired(live, target) && !Matches(d, target)
            && (forall id <- Undesired(live, target) :: !Less(Normal(live[id]), d, self))
            && (IsSelf(d, self) ==> d.logicalID.Some? && forall id <- Undesired(live, target) :: IsSelf(live[id], self))
  {
    assert |multiset(sorted)| == |multiset(undesired)|;
    assert sorted[0] in multiset(undesired);
    var d := sorted[0];
    assert d in list && d.id in Ids(undesired);
    NormalKeepsSelf(live[d.id], self);
    forall id | id in Undesired(live, target)
      ensures !Less(Normal(live[id]), d, self) && (IsSelf(d, self) ==> IsSelf(live[id], self))
    {
      assert id in Ids(undesired);
      var x :| x in undesired && x.id == id;
      assert x in multiset(sorted) && x == Normal(live[id]);
      var i :| 0 <= i < |sorted| && sorted[i] == x;
      LessIsStrictWeakOrder(d, d, d, self);
      if IsSelf(d, self) {
        FirstSelfMeansAllSelf(sorted, self, i);
      }
      NormalKeepsSelf(live[id], self);
    }
  }

  function Min(a: int, b: int): int {
    if a < b then a else b
  }

  /** After k successful destroys a wait awaits the desired instances found first, and k more; together with the
      undesired ones there are and will be, no more than there were instances and threats at first. */
  ghost predicate Modest(waits: seq<Awaited>, first: World, target: string, size: int) {
    var desired := |first.live| - |Undesired(first.live, target)|;
    forall k :: 0 <= k < |waits| ==>
      && waits[k].expected == Min(desired + k, size)
      && desired + k + Potential(waits[k].world, target, {}) <= |first.live| + Threats(first, target)
  }

  ghost predicate OnlyUndesired(log: seq<Description>, target: string, self: Option<string>) {
    forall d <- log :: !Matches(d, target) && !IsSelf(d, self)
  }

  /** How an update that ended leaves the group. */
  ghost predicate Concluded(outcome: Outcome, live: map<string, Description>, target: string, self: Option<string>) {
    match outcome
    case Updated => Undesired(live, target) == {}
    case OnlySelfLeft(_) => forall id <- Undesired(live, target) :: IsSelf(live[id], self)
    case Failed => true
    case Unfinished => true
  }

  /** Drained before, unless the configuration skips that. */
  ghost predicate Drained(log: seq<Description>, drains: seq<Description>, skipDrain: bool) {
    skipDrain || forall d <- log :: d in drains
  }

  /** Something outside has failed or the user has stopped the update. */
  predicate Fault(e: Env) {
    e.stop || e.listFails || e.labelFails || e.relistFails || e.drainFails || e.destroyFails
  }

  /** An update ends without success only at a fault or at the end of the script. */
  ghost predicate Excused(outcome: Outcome, env: seq<Env>, used: nat) {
    && used <= |env|
    && (outcome.Unfinished? ==> used == |env|)
    && (outcome.Failed? ==> used > 0 && Fault(env[used - 1]))
  }

  /** One round: wait, list, destroy one. No outcome means that the update goes on. */
  method Roll(scaled: Scaled, updating: Updating, expected: int, env: seq<Env>)
    returns (outcome: Option<Outcome>, used: nat,
             ghost log: seq<Description>, ghost polls: seq<Poll>, ghost seen: seq<World>)
    requires scaled.Valid()
    modifies scaled
    ensures scaled.Valid() && used <= |env|
    ensures scaled.destroys == old(scaled.destroys) + log && OnlyUndesired(log, scaled.target, scaled.self)
    ensures old(scaled.drains) <= scaled.drains && Drained(log, scaled.drains, scaled.skipDrain)
    ensures |polls| + 1 == |seen| && Observed(old(scaled.world), polls, seen, env, scaled.target)
    ensures log != [] || outcome.None? || outcome.value.Updated? || outcome.value.OnlySelfLeft? ==>
              Quiet(polls, updating, expected)
    ensures |log| <= Potential(old(scaled.world), scaled.target, {})
    ensures outcome == None ==>
              |log| == 1
              && Potential(scaled.world, scaled.target, {}) + 1 <= Potential(old(scaled.world), scaled.target, {})
    ensures outcome.Some? && outcome != Some(Failed) ==>
              log == [] && Potential(scaled.world, scaled.target, {}) <= Potential(old(scaled.world), scaled.target, {})
    ensures outcome.Some? ==>
              |log| <= 1 && Concluded(outcome.value, scaled.world.live, scaled.target, scaled.self)
              && Excused(outcome.value, env, used)
  {
    hide Listed, ListingFails, Matches, Undesired, NoWorse, IsSelf, Observed, Quiet, NeverQuiet, Keyed, Potential,
        After, Next, Less;
    log := [];
    ghost var start := scaled.world;
    var r;
    r, polls, used, seen := WaitUntilQuiesced(scaled, updating, expected, env);
    Lower(start, scaled.world, scaled.target);
    if r != Quiesced {
      if r == ListFailed {
        FailedListing(seen[|polls|], env[used - 1], scaled.target);
      }
      return Some(if r == StillWaiting then Unfinished else Failed), used, log, polls, seen;
    }
    if used == |env| {
      return Some(Unfinished), used, log, polls, seen;
    }
    ListingIsNoWorse(scaled.world, env[used], scaled.target);
    Lower(scaled.world, Listed(scaled.world, env[used], scaled.target), scaled.target);
    FailedListing(scaled.world, env[used], scaled.target);
    var next := FirstUndesired(scaled, env[used]);
    used := used + 1;
    if next.Failure? {
      return Some(Failed), used, log, polls, seen;
    }
    if next.value.None? {
      return Some(Updated), used, log, polls, seen;
    }
    if used == |env| {
      return Some(Unfinished), used, log, polls, seen;
    }
    var inst := next.value.value;
    Doomed(scaled.world, inst.id, env[used].before, scaled.target);
    var ok := scaled.Destroy(inst, true, env[used]);
    used := used + 1;
    log := scaled.destroys[|old(scaled.destroys)|..];
    if !ok {
      return Some(Failed), used, log, polls, seen;
    }
    if IsSelf(inst, scaled.self) {
      return Some(OnlySelfLeft(inst.logicalID.value)), used, log, polls, seen;
    }
    return None, used, log, polls, seen;
  }

  lemma FailedListing(w: World, e: Env, target: string)
    ensures ListingFails(w, e, target) ==> Fault(e)
  {}

  /** What each wait saw is what the script and the world made of it; the first n of them ended quietly. */
  ghost predicate Waited(waits: seq<Awaited>, n: nat, env: seq<Env>, updating: Updating, target: string) {
    && (forall w <- waits ::
          w.from <= |env| && |w.polls| + 1 == |w.seen| && Observed(w.world, w.polls, w.seen, env[w.from..], target))
    && n <= |waits| && forall k :: 0 <= k < n ==> Quiet(waits[k].polls, updating, waits[k].expected)
  }

  /** Destroys undesired instances one at a time, waiting before each for as many new ones as have been destroyed.
      `first` is the world of its first listing, `log` what it has the instance plugin destroy. */
  method Run(scaled: Scaled, updating: Updating, logicalIDs: nat, allocation: nat, env: seq<Env>)
    returns (outcome: Outcome, used: nat, ghost first: World, ghost waits: seq<Awaited>, ghost log: seq<Description>)
    requires scaled.Valid()
    modifies scaled
    ensures scaled.Valid()
    ensures scaled.destroys == old(scaled.destroys) + log && OnlyUndesired(log, scaled.target, scaled.self)
    ensures Drained(log, scaled.drains, scaled.skipDrain)
    ensures |log| <= Potential(old(scaled.world), scaled.target, {})
    ensures !outcome.Failed? ==>
              |log| + Potential(scaled.world, scaled.target, {}) <= Potential(old(scaled.world), scaled.target, {})
    ensures Concluded(outcome, scaled.world.live, scaled.target, scaled.self) && Excused(outcome, env, used)
    ensures if env == [] then waits == [] else first == Listed(old(scaled.world), env[0], scaled.target)
    ensures Modest(waits, first, scaled.target, if logicalIDs == 0 then allocation else logicalIDs)
    ensures var quiet := if outcome.Updated? || outcome.OnlySelfLeft? then |waits| else |log|;
            Waited(waits, quiet, env, updating, scaled.target)
    ensures |waits| <= |log| + 1
  {
    hide Listed, ListingFails, Undesired, NoWorse, Keyed, Potential, Modest, OnlyUndesired, Waited, Drained, Quiet,
        Observed, Fault;
    first, waits, log, used := scaled.world, [], [], 0;
    ghost var size := if logicalIDs == 0 then allocation else logicalIDs;
    NoWaits(first, scaled, size, env, updating);
    if env == [] {
      return Unfinished, used, first, waits, log;
    }
    ListingIsNoWorse(scaled.world, env[0], scaled.target);
    Lower(scaled.world, Listed(scaled.world, env[0], scaled.target), scaled.target);
    FailedListing(scaled.world, env[0], scaled.target);
    var desired := CountDesired(scaled, env[0]);
    first, used := scaled.world, 1;
    NoWaits(first, scaled, size, env, updating);
    if desired.None? {
      return Failed, used, first, waits, log;
    }
    var expectedNewInstances := desired.value;
    while true
      invariant scaled.Valid() && 1 <= used <= |env|
      invariant scaled.destroys == old(scaled.destroys) + log && OnlyUndesired(log, scaled.target, scaled.self)
      invariant Drained(log, scaled.drains, scaled.skipDrain)
      invariant |log| == |waits| && expectedNewInstances == desired.value + |waits|
      invariant |log| + Potential(scaled.world, scaled.target, {}) <= Potential(first, scaled.target, {})
      invariant Modest(waits, first, scaled.target, size) && Waited(waits, |waits|, env, updating, scaled.target)
      decreases Potential(scaled.world, scaled.target, {})
    {
      var desiredSize := logicalIDs;
      if desiredSize == 0 {
        desiredSize := allocation;
      }
      ghost var from, before, drains := used, scaled.world, scaled.drains;
      var result, more, destroyed, polls, seen :=
        Roll(scaled, updating, Min(expectedNewInstances, desiredSize), env[used..]);
      ghost var wait := Awaited(Min(expectedNewInstances, desiredSize), before, from, polls, seen);
      OneMoreWait(waits, first, scaled.target, size, wait);
      WaitedOneMore(waits, wait, env, updating, scaled.target);
      waits, used := waits + [wait], used + more;
      OneMoreDestroy(log, destroyed, scaled.target, scaled.self, drains, scaled.drains, scaled.skipDrain);
      log := log + destroyed;
      if result.Some? {
        return result.value, used, first, waits, log;
      }
      expectedNewInstances := expectedNewInstances + 1;
    }
  }

  lemma WaitedOneMore(waits: seq<Awaited>, w: Awaited, env: seq<Env>, updating: Updating, target: string)
    requires Waited(waits, |waits|, env, updating, target)
    requires w.from <= |env| && |w.polls| + 1 == |w.seen| && Observed(w.world, w.polls, w.seen, env[w.from..], target)
    ensures Waited(waits + [w], |waits|, env, updating, target)
    ensures Quiet(w.polls, updating, w.expected) ==> Waited(waits + [w], |waits + [w]|, env, updating, target)
  {
    hide Observed, Quiet;
  }

  lemma NoWaits(first: World, scaled: Scaled, size: int, env: seq<Env>, updating: Updating)
    ensures Modest([], first, scaled.target, size) && OnlyUndesired([], scaled.target, scaled.self)
    ensures Waited([], 0, env, updating, scaled.target) && Drained([], scaled.drains, scaled.skipDrain)
  {}

  lemma OneMoreDestroy(log: seq<Description>, more: seq<Description>, target: string, self: Option<string>,
                       before: seq<Description>, drains: seq<Description>, skipDrain: bool)
    requires OnlyUndesired(log, target, self) && OnlyUndesired(more, target, self) && before <= drains
    requires Drained(log, before, skipDrain) && Drained(more, drains, skipDrain)
    ensures OnlyUndesired(log + more, target, self) && Drained(log + more, drains, skipDrain)
  {}

  lemma OneMoreWait(waits: seq<Awaited>, first: World, target: string, size: int, w: Awaited)
    requires Modest(waits, first, target, size)
    requires |waits| + Potential(w.world, target, {}) <= Potential(first, target, {})
    requires w.expected == Min(|first.live| - |Undesired(first.live, target)| + |waits|, size)
    ensures Modest(waits + [w], first, target, size)
  {
    hide Undesired, Potential;
  }

  lemma Lower(w: World, after: World, target: string)
    requires NoWorse(w, after, target)
    ensures Potential(after, target, {}) <= Potential(w, target, {})
  {}

  lemma Doomed(seen: World, id: string, changes: seq<Change>, target: string)
    requires target != BOOTSTRAP && id in Undesired(seen.live, target)
    ensures Potential(Next(After(seen, changes, target), Remove(id), target), target, {}) + 1
         <= Potential(seen, target, {})
  {
    ChangesKeepPotential(seen, changes, target);
    RemovalLowersPotential(seen, After(seen, changes, target), id, target);
  }

  // ---------- What is awaited can come ----------

  /** A new instance of the current configuration. */
  function Fresh(id: string, target: string): Description {
    Description(id, None, map[CONFIG_SHA_TAG := target])
  }

  lemma CreateOne(w: World, id: string, token: nat, target: string)
    requires id !in UsedIds(w) && token !in w.creating
    ensures Next(Next(w, BeginCreate(token), target), EndCreate(token, Fresh(id, target)), target)
         == w.(live := w.live[id := Fresh(id, target)])
    ensures Undesired(w.live[id := Fresh(id, target)], target) == Undesired(w.live, target)
  {
    hide ListedIds;
    assert w.creating[token := target] - {token} == w.creating;
    UndesiredWith(w.live, Fresh(id, target), target);
    assert Undesired(w.live, target) + {} == Undesired(w.live, target);
  }

  lemma AfterTwo(w: World, changes: seq<Change>, a: Change, b: Change, target: string)
    ensures After(w, changes + [a, b], target) == Next(Next(After(w, changes, target), a, target), b, target)
  {
    hide Next;
    assert (changes + [a, b])[..|changes| + 1] == changes + [a] && (changes + [a])[..|changes|] == changes;
  }

  /** The scaler creates what is missing. */
  lemma {:induction false} CreateMissing(w: World, ids: seq<string>, token: nat, target: string)
    returns (changes: seq<Change>)
    requires token !in w.creating
    requires (forall id <- ids :: id !in UsedIds(w)) && forall i, j :: 0 <= i < j < |ids| ==> ids[i] != ids[j]
    ensures var n := After(w, changes, target);
            && n == w.(live := n.live) && (forall id :: id in n.live <==> id in w.live || id in ids)
            && |n.live| == |w.live| + |ids| && Undesired(n.live, target) == Undesired(w.live, target)
    decreases |ids|
  {
    hide Next, Undesired, UsedIds, Fresh;
    if ids == [] {
      changes := [];
      assert After(w, [], target) == w;
    } else {
      var init, id := ids[..|ids| - 1], ids[|ids| - 1];
      changes := CreateMissing(w, init, token, target);
      var n := After(w, changes, target);
      assert id in ids && id !in init;
      StaysUnused(w, n, id);
      CreateOne(n, id, token, target);
      AfterTwo(w, changes, BeginCreate(token), EndCreate(token, Fresh(id, target)), target);
      changes := changes + [BeginCreate(token), EndCreate(token, Fresh(id, target))];
      assert ids == init + [id];
      OneMore(n.live, id, Fresh(id, target));
    }
  }

  lemma StaysUnused(w: World, n: World, id: string)
    requires n == w.(live := n.live) && id !in UsedIds(w)
    ensures id !in w.live && (id !in n.live ==> id !in UsedIds(n))
  {
    hide ListedIds;
  }

  lemma OneMore(live: map<string, Description>, id: string, d: Description)
    requires id !in live
    ensures |live[id := d]| == |live| + 1 && live[id := d].Keys == live.Keys + {id}
  {
    assert live[id := d].Keys == live.Keys + {id};
    assert |live[id := d].Keys| == |live.Keys| + 1;
  }

  lemma {:induction false} UnusedToken(tokens: set<nat>) returns (t: nat)
    ensures forall x <- tokens :: x < t
    decreases |tokens|
  {
    t := 0;
    if tokens != {} {
      var x :| x in tokens;
      t := UnusedToken(tokens - {x});
      if t <= x {
        t := x + 1;
      }
      assert forall y <- tokens :: y == x || y in tokens - {x};
    }
  }

  /** Nothing fails and everyone is healthy. */
  function Calm(changes: seq<Change>, ids: set<string>, now: int): Env {
    Env(false, changes, false, [], [], false, [], false, map id | id in ids :: Healthy, now, false, false)
  }

  /** A first listing labels what it must; after it nothing needs a label. */
  lemma CalmListing(w: World, changes: seq<Change>, ids: set<string>, now: int, target: string)
    requires target != BOOTSTRAP
    ensures var e := Calm(changes, ids, now);
            var n := Listed(w, e, target);
            var filled := After(w, changes, target);
            && !ListingFails(w, e, target) && !SomeNeedLabel(n.live) && n.live.Keys == filled.live.Keys
            && Undesired(n.live, target) <= Undesired(filled.live, target)
  {
    hide Matches;
    var filled := After(w, changes, target);
    var begun := filled.(own := Bootstraps(filled.live));
    assert After(filled, [], target) == filled && After(begun, [], target) == begun;
    var done := PutRest(begun, target);
    assert After(done, [], target) == done;
    BootstrapsLabelled(filled, target);
  }

  lemma BootstrapsLabelled(w: World, target: string)
    requires target != BOOTSTRAP
    ensures var n := PutRest(w.(own := Bootstraps(w.live)), target);
            !SomeNeedLabel(n.live) && n.live.Keys == w.live.Keys
                && Undesired(n.live, target) <= Undesired(w.live, target)
  {}

  lemma NothingToLabel(w: World, ids: set<string>, now: int, target: string)
    requires !SomeNeedLabel(w.live)
    ensures Listed(w, Calm([], ids, now), target) == w && !ListingFails(w, Calm([], ids, now), target)
  {}

  lemma AllHealthy(live: map<string, Description>, target: string)
    ensures |HealthyIn(live, target, Calm([], live.Keys, 0).health)| == |live| - |Undesired(live, target)|
  {
    var healthy, u := HealthyIn(live, target, Calm([], live.Keys, 0).health), Undesired(live, target);
    assert live.Keys == healthy + u && healthy !! u;
    assert |live.Keys| == |healthy| + |u|;
  }

  /** How many polls it takes. */
  function PollsNeeded(updating: Updating): nat {
    if updating.count > 0 then updating.count else if updating.duration > 0 then 2 else 1
  }

  function Clock(updating: Updating, i: nat): int {
    if i == 0 || updating.duration <= 0 then 0 else updating.duration
  }

  lemma {:induction false} AllEnoughIsAStreak(polls: seq<Poll>, expected: int)
    requires forall p <- polls :: Enough(p, expected)
    ensures Streak(polls, expected) == |polls|
  {
    if polls != [] {
      AllEnoughIsAStreak(polls[..|polls| - 1], expected);
    }
  }

  /** The script: the scaler fills the group up, and then nothing changes until the wait is over. */
  function Script(changes: seq<Change>, ids: set<string>, updating: Updating): seq<Env> {
    seq(PollsNeeded(updating), i requires 0 <= i < PollsNeeded(updating) =>
          Calm(if i == 0 then changes else [], ids, Clock(updating, i)))
  }

  lemma ScriptQuiets(w: World, changes: seq<Change>, target: string, updating: Updating, expected: int)
    returns (polls: seq<Poll>, seen: seq<World>)
    requires target != BOOTSTRAP
    requires var filled := After(w, changes, target).live; |filled| - |Undesired(filled, target)| >= expected
    ensures var env := Script(changes, After(w, changes, target).live.Keys, updating);
            |polls| == |env| && Observed(w, polls, seen, env, target) && Quiet(polls, updating, expected)
  {
    hide Listed, ListingFails, HealthyIn, Undesired, SomeNeedLabel, After;
    var filled := After(w, changes, target).live;
    var env, n := Script(changes, filled.Keys, updating), PollsNeeded(updating);
    CalmListing(w, changes, filled.Keys, 0, target);
    var first := Listed(w, env[0], target);
    Fewest(first.live, filled, target);
    AllHealthy(first.live, target);
    var healthy := |first.live| - |Undesired(first.live, target)|;
    polls := seq(n, i requires 0 <= i < n => Poll(healthy, Clock(updating, i)));
    seen := [w] + seq(n, _ => first);
    forall i | 0 <= i < n ensures
      && seen[i + 1] == Listed(seen[i], env[i], target) && !env[i].stop && !ListingFails(seen[i], env[i], target)
      && polls[i] == Poll(|HealthyIn(seen[i + 1].live, target, env[i].health)|, env[i].now)
    {
      if i > 0 {
        NothingToLabel(first, filled.Keys, Clock(updating, i), target);
      }
      assert env[i].health == Calm([], first.live.Keys, 0).health;
    }
    AllEnoughIsAStreak(polls, expected);
  }

  lemma Fewest(live: map<string, Description>, filled: map<string, Description>, target: string)
    requires live.Keys == filled.Keys && Undesired(live, target) <= Undesired(filled, target)
    ensures |live| - |Undesired(live, target)| >= |filled| - |Undesired(filled, target)|
  {
    assert |live.Keys| == |filled.Keys|;
    Fewer(Undesired(live, target), Undesired(filled, target));
  }

  lemma AwaitsNoMoreThanComes(waits: seq<Awaited>, first: World, target: string, size: nat, k: nat)
    requires Modest(waits, first, target, size) && k < |waits|
    requires |first.live| == size && !Threatened(first, target)
    ensures waits[k].expected <= size - |Undesired(waits[k].world.live, target)|
  {
    hide Undesired, Potential, Threatened;
    ThreatsExactly(first, target);
    ThreatsExactly(waits[k].world, target);
  }

  /** In a group of unchanged size that was full at first, with no create or label by older settings to come that makes
      an instance undesired, what is awaited never exceeds the size less the undesired instances that remain; and from
      there the scaler, by creating what is missing, and healthy instances make the wait end. */
  lemma AwaitedIsAttainable(waits: seq<Awaited>, first: World, target: string, size: nat, k: nat, ids: seq<string>,
                            updating: Updating)
    returns (env: seq<Env>, polls: seq<Poll>, seen: seq<World>)
    requires Modest(waits, first, target, size) && k < |waits| && target != BOOTSTRAP
    requires |first.live| == size && !Threatened(first, target)
    requires var live := waits[k].world.live;
             && |ids| == (if |live| < size then size - |live| else 0)
                 && (forall id <- ids :: id !in UsedIds(waits[k].world))
             && forall i, j :: 0 <= i < j < |ids| ==> ids[i] != ids[j]
    ensures waits[k].expected <= size - |Undesired(waits[k].world.live, target)|
    ensures |polls| == |env| && Observed(waits[k].world, polls, seen, env, target)
            && Quiet(polls, updating, waits[k].expected)
  {
    hide Undesired, After, Observed, Quiet, Modest, Threatened;
    var w := waits[k].world;
    AwaitsNoMoreThanComes(waits, first, target, size, k);
    var token := UnusedToken(w.creating.Keys);
    var changes := CreateMissing(w, ids, token, target);
    env := Script(changes, After(w, changes, target).live.Keys, updating);
    polls, seen := ScriptQuiets(w, changes, target, updating, waits[k].expected);
  }

  /** Without that condition it can fail: in a full group, a label by someone who read older settings takes a desired
      instance away, nothing is missing that the scaler would create, and no poll sees enough. */
  lemma StaleLabelBlocksTheWait(w: World, t: nat, id: string, target: string, health: map<string, Health>)
    requires t in w.labelling && w.labelling[t].hash != target && id in w.labelling[t].ids
    requires id in w.live && Matches(w.live[id], target)
    ensures var n := Next(w, PutLabel(t, id), target);
            |n.live| == |w.live| && |HealthyIn(n.live, target, health)| < |w.live| - |Undesired(w.live, target)|
  {
    hide Next;
    StaleLabelGrows(w, t, id, target);
    var n := Next(w, PutLabel(t, id), target);
    var u, healthy := Undesired(n.live, target), HealthyIn(n.live, target, health);
    assert |n.live.Keys| == |w.live.Keys|;
    assert healthy !! u && healthy + u <= n.live.Keys;
    Fewer(healthy + u, n.live.Keys);
    assert |healthy + u| == |healthy| + |u|;
  }

  /** What is observed follows from the world and the script. */
  lemma {:induction false} SameObservations(start: World, polls: seq<Poll>, seen: seq<World>, polls': seq<Poll>,
                                            seen': seq<World>,
                                            env: seq<Env>, target: string, n: nat)
    requires Observed(start, polls, seen, env, target) && Observed(start, polls', seen', env, target)
    requires n <= |polls| && n <= |polls'|
    ensures seen[..n + 1] == seen'[..n + 1] && polls[..n] == polls'[..n]
  {
    hide Listed, ListingFails, HealthyIn;
    if n > 0 {
      SameObservations(start, polls, seen, polls', seen', env, target, n - 1);
      assert seen[n - 1] == seen[..n][n - 1] == seen'[..n][n - 1] == seen'[n - 1];
      assert seen[n] == Listed(seen[n - 1], env[n - 1], target) == seen'[n];
      assert seen[..n + 1] == seen[..n] + [seen[n]] && seen'[..n + 1] == seen'[..n] + [seen'[n]];
      assert polls[..n] == polls[..n - 1] + [polls[n - 1]] && polls'[..n] == polls'[..n - 1] + [polls'[n - 1]];
    }
  }

  /** On a script whose observations end quietly the wait succeeds: with AwaitedIsAttainable, every wait can. */
  method WaitSucceeds(scaled: Scaled, updating: Updating, expected: int, env: seq<Env>, ghost polls: seq<Poll>,
                      ghost seen: seq<World>)
    returns (r: WaitResult, used: nat)
    requires scaled.Valid() && |polls| == |env|
    requires Observed(scaled.world, polls, seen, env, scaled.target) && Quiet(polls, updating, expected)
    modifies scaled`world
    ensures scaled.Valid() && r == Quiesced && used <= |env|
  {
    hide Quiet, Listed, ListingFails, HealthyIn, NoWorse;
    ghost var polls', seen';
    ghost var start, target := scaled.world, scaled.target;
    r, polls', used, seen' := WaitUntilQuiesced(scaled, updating, expected, env);
    SameObservations(start, polls, seen, polls', seen', env, target, |polls'|);
    assert polls[..|polls|] == polls && polls'[..|polls'|] == polls';
  }
}
