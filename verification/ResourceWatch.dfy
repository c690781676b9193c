/** Dependency-ordered destroy in the resource controller, through one-shot watchers
    (pkg/controller/resource/watch.go, pkg/controller/resource/collection.go). */
module ResourceWatch {
  import opened Wrappers

  // ---------- Watchers ----------

  /** A Go channel used as a signal; closing it twice panics. */
  class Channel {
    /** The object whose loss closes it. */
    ghost const dependent: string
    var closed: bool

    constructor (ghost dependent: string)
      ensures this.dependent == dependent && !closed
    {
      this.dependent := dependent;
      closed := false;
    }

    method Close()
      requires !closed
      modifies this
      ensures closed
    {
      closed := true;
    }
  }

  predicate NoneTwice(channels: seq<Channel>) {
    forall i, j :: 0 <= i < j < |channels| ==> channels[i] != channels[j]
  }

  class Watch {
    var watchers: map<string, seq<Channel>>

    constructor ()
      ensures Valid() && watchers == map[]
    {
      watchers := map[];
    }

    ghost function Channels(): set<Channel>
      reads this
    {
      set name, ch | name in watchers && ch in watchers[name] :: ch
    }

    ghost function Under(name: string): set<Channel>
      reads this
    {
      if name in watchers then set ch | ch in watchers[name] else {}
    }

    /** Every registered channel is open and registered once. */
    ghost predicate Valid()
      reads this, Channels()
    {
      && (forall name <- watchers :: NoneTwice(watchers[name]))
      && (forall name, ch | name in watchers && ch in watchers[name] ::
            ch.dependent == name && ch in Channels() && !ch.closed)
    }

    method Add(name: string, watcher: Channel)
      requires Valid() && watcher.dependent == name && !watcher.closed && watcher !in Channels()
      modifies this
      ensures var before := if name in old(watchers) then old(watchers)[name] else [];
              Valid() && watchers == old(watchers)[name := before + [watcher]]
    {
      var before := if name in watchers then watchers[name] else [];
      assert forall ch | ch in before :: ch in Channels();
      watchers := watchers[name := before + [watcher]];
    }

    /** Closes all channels under a name, each for the first time, and forgets them. */
    method Notify(name: string)
      requires Valid()
      modifies this, Under(name)
      ensures Valid() && watchers == old(watchers) - {name}
      ensures forall ch <- old(Under(name)) :: ch.closed
    {
      if name in watchers && |watchers[name]| != 0 {
        var all := watchers[name];
        for i := 0 to |all|
          modifies Under(name)
          invariant forall k :: 0 <= k < i ==> all[k].closed
          invariant forall k :: i <= k < |all| ==> !all[k].closed
        {
          all[i].Close();
        }
      }
      watchers := watchers - {name};
    }
  }

  // ---------- Who waits for whom ----------

  /** A dependency in a spec: a path without a key, or the key of another resource. */
  datatype Dep = BadPath | Key(key: string)

  /** The specs by key; None is a spec that cannot be parsed. */
  type Properties = map<string, Option<seq<Dep>>>

  function FirstColon(s: string): (i: int)
    ensures -1 <= i < |s|
  {
    if s == "" then -1 else if s[0] == ':' then 0
    else
      var i := FirstColon(s[1..]);
      if i < 0 then -1 else i + 1
  }

  /** With a modifier, as in post-provision:x. */
  predicate Qualified(key: string) {
    FirstColon(key) > 0
  }

  predicate DependsOn(properties: Properties, x: string, key: string) {
    x in properties && properties[x].Some? && !Qualified(key) && Key(key) in properties[x].value
  }

  ghost function Dependents(channels: seq<Channel>): set<string> {
    set ch | ch in channels :: ch.dependent
  }

  /** For the pairs (x, key) so far, each key watches the loss of exactly the x. */
  ghost predicate Wired(watching: map<string, seq<Channel>>, pairs: set<(string, string)>) {
    && (forall key <- watching, x <- Dependents(watching[key]) :: (x, key) in pairs)
    && (forall p <- pairs :: p.1 in watching && p.0 in Dependents(watching[p.1]))
    && (forall key <- watching :: watching[key] != [])
  }

  ghost predicate AllRegistered(watching: map<string, seq<Channel>>, watchers: map<string, seq<Channel>>) {
    forall key, ch | key in watching && ch in watching[key] :: ch.dependent in watchers && ch in watchers[ch.dependent]
  }

  method WatchFor(watch: Watch, watching: map<string, seq<Channel>>, ghost pairs: set<(string, string)>, x: string,
                  key: string)
    returns (out: map<string, seq<Channel>>)
    requires watch.Valid() && Wired(watching, pairs) && AllRegistered(watching, watch.watchers)
    modifies watch
    ensures watch.Valid() && Wired(out, pairs + {(x, key)}) && AllRegistered(out, watch.watchers)
    ensures fresh(watch.Channels() - old(watch.Channels()))
  {
    hide Wired;
    out := watching;
    if key !in out {
      out := out[key := []];
    }
    var w := new Channel(x);
    out := out[key := out[key] + [w]];
    assert w !in watch.Channels();
    watch.Add(x, w);
    WiredWith(watching, pairs, x, key, w);
    assert out == watching[key := (if key in watching then watching[key] else []) + [w]];
  }

  lemma WiredWith(watching: map<string, seq<Channel>>, pairs: set<(string, string)>, x: string, key: string, w: Channel)
    requires Wired(watching, pairs) && w.dependent == x
    ensures Wired(watching[key := (if key in watching then watching[key] else []) + [w]], pairs + {(x, key)})
  {
    var before := if key in watching then watching[key] else [];
    assert Dependents(before + [w]) == Dependents(before) + {x};
  }

  /** For a resource, a channel for each of those that depend on it; it is registered under their keys. */
  method ProcessDestroyWatches(properties: Properties) returns (watch: Watch, watching: map<string, seq<Channel>>)
    ensures fresh(watch) && fresh(watch.Channels()) && watch.Valid() && AllRegistered(watching, watch.watchers)
    ensures forall key <- watching :: watching[key] != []
    ensures forall key, x :: DependsOn(properties, x, key) <==> key in watching && x in Dependents(watching[key])
  {
    hide Qualified, Watch.Valid;
    watch := new Watch();
    watching := map[];
    ghost var pairs: set<(string, string)> := {};
    var left := properties.Keys;
    while left != {}
      invariant fresh(watch) && fresh(watch.Channels()) && watch.Valid() && left <= properties.Keys
      invariant Wired(watching, pairs) && AllRegistered(watching, watch.watchers)
      invariant forall p <- pairs :: DependsOn(properties, p.0, p.1)
      invariant forall x, key | DependsOn(properties, x, key) && x !in left :: (x, key) in pairs
      decreases |left|
    {
      var x := Pick(left);
      left := left - {x};
      if properties[x].Some? {
        var deps := properties[x].value;
        for i := 0 to |deps|
          invariant fresh(watch) && fresh(watch.Channels()) && watch.Valid()
          invariant Wired(watching, pairs) && AllRegistered(watching, watch.watchers)
          invariant forall p <- pairs :: DependsOn(properties, p.0, p.1)
          invariant forall y, key | DependsOn(properties, y, key) && y !in left && y != x :: (y, key) in pairs
          invariant forall key | Key(key) in deps[..i] && !Qualified(key) :: (x, key) in pairs
        {
          if deps[i].Key? && !Qualified(deps[i].key) {
            watching := WatchFor(watch, watching, pairs, x, deps[i].key);
            pairs := pairs + {(x, deps[i].key)};
          }
          assert deps[..i + 1] == deps[..i] + [deps[i]];
        }
        assert deps[..|deps|] == deps;
      }
    }
    WiredExactly(watching, pairs, properties);
  }

  lemma WiredExactly(watching: map<string, seq<Channel>>, pairs: set<(string, string)>, properties: Properties)
    requires Wired(watching, pairs) && forall p <- pairs :: DependsOn(properties, p.0, p.1)
    requires forall x, key | DependsOn(properties, x, key) :: (x, key) in pairs
    ensures forall key, x :: DependsOn(properties, x, key) <==> key in watching && x in Dependents(watching[key])
  {
    forall key, x ensures DependsOn(properties, x, key) <==> key in watching && x in Dependents(watching[key]) {
      if DependsOn(properties, x, key) {
        assert (x, key) in pairs;
        var p :| p in pairs && p == (x, key);
      }
    }
  }

  // ---------- The event loop ----------

  /** What the outside sees: an item reported lost, a resource given to the plugin's Destroy. */
  datatype Event = Lost(lost: string) | Destroyed(destroyed: string)

  function LostIn(events: seq<Event>): set<string> {
    set e | e in events && e.Lost? :: e.lost
  }

  /** At each destroy, every dependent has been reported lost before. */
  ghost predicate Ordered(properties: Properties, events: seq<Event>) {
    forall i, x :: 0 <= i < |events| && events[i].Destroyed? && DependsOn(properties, x, events[i].destroyed) ==>
      x in LostIn(events[..i])
  }

  datatype Input =
    | LostInstance(k: string, known: bool)
    | DependencyComplete(key: string, known: bool)
    | ToDestroy(key: string, possible: bool)

  datatype Progress = Progress(cleared: set<string>, events: seq<Event>)

  ghost predicate HasDependents(properties: Properties, key: string) {
    exists x :: DependsOn(properties, x, key)
  }

  ghost predicate AllLost(properties: Properties, key: string, lost: set<string>) {
    forall x :: DependsOn(properties, x, key) ==> x in lost
  }

  /** What one input does: a loss is noted; a resource is cleared once all that depend on it are lost; and only a
      cleared resource, or one that nothing depends on, is destroyed. */
  ghost function Handled(properties: Properties, p: Progress, input: Input): Progress {
    match input
    case LostInstance(k, known) => if known then p.(events := p.events + [Lost(k)]) else p
    case DependencyComplete(key, known) =>
      if known && HasDependents(properties, key) && AllLost(properties, key, LostIn(p.events))
      then p.(cleared := p.cleared + {key}) else p
    case ToDestroy(key, possible) =>
      if possible && (key in p.cleared || !HasDependents(properties, key))
      then p.(events := p.events + [Destroyed(key)]) else p
  }

  ghost function HandledAll(properties: Properties, p: Progress, inputs: seq<Input>): Progress {
    if inputs == [] then p
    else Handled(properties, HandledAll(properties, p, inputs[..|inputs| - 1]), inputs[|inputs| - 1])
  }

  lemma OneMoreEvent(properties: Properties, events: seq<Event>, e: Event)
    requires Ordered(properties, events)
    requires e.Destroyed? ==> forall x :: DependsOn(properties, x, e.destroyed) ==> x in LostIn(events)
    ensures Ordered(properties, events + [e])
    ensures LostIn(events + [e]) == LostIn(events) + if e.Lost? then {e.lost} else {}
  {
    var more := events + [e];
    forall i, x | 0 <= i < |more| && more[i].Destroyed? && DependsOn(properties, x, more[i].destroyed)
      ensures x in LostIn(more[..i])
    {
      if i < |events| {
        assert more[i] == events[i] && more[..i] == events[..i];
      } else {
        assert more[..i] == events;
      }
    }
  }

  class Controller {
    const properties: Properties
    const watch: Watch
    const watching: map<string, seq<Channel>>
    var okToDestroy: set<string>
    var events: seq<Event>

    ghost function Watched(): set<Channel> {
      set key, ch | key in watching && ch in watching[key] :: ch
    }

    /** Channels are closed exactly for those reported lost. */
    ghost predicate ClosedForLost()
      reads this, watch, Watched()
    {
      forall key, ch | key in watching && ch in watching[key] ::
        && ch in Watched()
        && (ch.closed <==> ch.dependent in LostIn(events))
        && (!ch.closed ==> ch in watch.Under(ch.dependent))
    }

    ghost predicate Clear(key: string)
      reads this
    {
      AllLost(properties, key, LostIn(events))
    }

    ghost predicate Valid()
      reads this, watch, watch.Channels(), Watched()
    {
      && watch.Valid() && ClosedForLost()
      && (forall key, x :: DependsOn(properties, x, key) <==> key in watching && x in Dependents(watching[key]))
      && (forall key <- watching :: watching[key] != [])
      && (forall key <- okToDestroy :: Clear(key))
      && Ordered(properties, events)
    }

    constructor (properties: Properties)
      ensures Valid() && fresh(watch) && fresh(watch.Channels()) && this.properties == properties && events == []
    {
      var watch', watching' := ProcessDestroyWatches(properties);
      this.properties := properties;
      watch, watching := watch', watching';
      okToDestroy, events := {}, [];
    }

    lemma WatchingMeansDependents(key: string)
      requires Valid()
      ensures key in watching <==> HasDependents(properties, key)
    {
      if key in watching {
        assert watching[key][0].dependent in Dependents(watching[key]);
      }
    }

    /** An item is reported lost. Only known items are told to the watchers. */
    method HandleLost(k: string, known: bool)
      requires Valid()
      modifies this`events, watch, watch.Under(k)
      ensures Valid()
      ensures events == old(events) + if known then [Lost(k)] else []
      ensures watch.watchers == if known then old(watch.watchers) - {k} else old(watch.watchers)
    {
      if known {
        OneMoreEvent(properties, events, Lost(k));
        watch.Notify(k);
        events := events + [Lost(k)];
      }
    }

    /** The merged channel of a resource closes when all its channels are closed. */
    method FanIn(key: string) returns (complete: bool)
      requires Valid() && key in watching
      ensures complete <==> Clear(key)
    {
      complete := forall ch <- watching[key] :: ch.closed;
    }

    /** All dependents of a resource are gone. */
    method HandleDependencyComplete(key: string, known: bool)
      requires Valid() && Clear(key)
      modifies this`okToDestroy
      ensures Valid() && okToDestroy == old(okToDestroy) + if known then {key} else {}
    {
      if known {
        okToDestroy := okToDestroy + {key};
      }
    }

    /** A resource is to be destroyed: refused when it still watches others, given to the plugin when it can be. */
    method HandleDestroy(key: string, possible: bool) returns (refused: bool)
      requires Valid()
      modifies this`events
      ensures Valid()
      ensures refused <==> key !in okToDestroy && HasDependents(properties, key)
      ensures events == old(events) + if !refused && possible then [Destroyed(key)] else []
    {
      WatchingMeansDependents(key);
      if key !in okToDestroy && key in watching {
        return true;
      }
      if possible {
        OneMoreEvent(properties, events, Destroyed(key));
        events := events + [Destroyed(key)];
      }
      return false;
    }

    /** Any run of the event loop: a resource is given to the plugin only after its dependents were reported lost. */
    method Loop(inputs: seq<Input>)
      requires Valid()
      modifies this, watch, watch.Channels()
      ensures Valid() && Ordered(properties, events)
      ensures Progress(okToDestroy, events) == HandledAll(properties, old(Progress(okToDestroy, events)), inputs)
    {
      hide Ordered, LostIn, HasDependents, AllLost;
      ghost var start := Progress(okToDestroy, events);
      for i := 0 to |inputs|
        invariant Valid() && watch.Channels() <= old(watch.Channels())
        invariant Progress(okToDestroy, events) == HandledAll(properties, start, inputs[..i])
      {
        assert inputs[..i + 1][..i] == inputs[..i];
        match inputs[i] {
          case LostInstance(k, known) =>
            HandleLost(k, known);
          case DependencyComplete(key, known) =>
            WatchingMeansDependents(key);
            if key in watching {
              var complete := FanIn(key);
              if complete {
                HandleDependencyComplete(key, known);
              }
            }
          case ToDestroy(key, possible) =>
            var _ := HandleDestroy(key, possible);
        }
      }
      assert inputs[..|inputs|] == inputs;
    }
  }
}
