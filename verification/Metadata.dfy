/** Optimistic concurrency for metadata: Changes and Commit
    (pkg/plugin/metadata/updatable.go, pkg/types/any.go). */
module Metadata {
  import opened Wrappers
  import opened GoStrings

  // ---------- Fingerprints ----------

  /** What a fingerprint sees of a document. */
  function Norm(doc: string): string {
    ReplaceAll(ReplaceAll(ReplaceAll(ReplaceAll(doc, ": ", ":"), ":", ":"), "\n", ""), "\t", "")
  }

  /** The digest of two documents, one after the other. The digest function is taken to be injective. */
  function Fingerprint(hash: string -> string, a: string, b: string): string {
    hash(Norm(a) + Norm(b))
  }

  ghost predicate Injective(hash: string -> string) {
    forall x, y :: hash(x) == hash(y) ==> x == y
  }

  /** A commit of what was proposed for `original` is accepted over `stored` exactly when the two look the same. */
  lemma AcceptedExactly(hash: string -> string, original: string, stored: string, proposed: string)
    requires Injective(hash)
    ensures Fingerprint(hash, stored, proposed) == Fingerprint(hash, original, proposed) <==>
              Norm(stored) == Norm(original)
  {
    if Norm(stored) + Norm(proposed) == Norm(original) + Norm(proposed) {
      var a, b, c := Norm(stored), Norm(original), Norm(proposed);
      assert |a + c| == |b + c|;
      assert a == (a + c)[..|a|] && b == (b + c)[..|b|];
    }
  }

  /** A fingerprint cannot tell a colon with a space after it from one without, also within a string. */
  lemma SpaceAfterColonIsLost(before: string, after: string)
    requires after != "" && after[0] != ' '
    ensures before + ": " + after != before + ":" + after
    ensures Norm(before + ": " + after) == Norm(before + ":" + after)
  {
    hide ReplaceAll;
    ReplaceJoins(before, ": " + after, ": ", ":");
    ReplaceHits(after, ": ", ":");
    ReplaceJoins(before, ":" + after, ": ", ":");
    ReplaceMoves(':', after, ": ", ":");
    assert before + ": " + after == before + (": " + after);
    assert before + ":" + after == before + ([':'] + after);
    assert |before + ": " + after| == |before + ":" + after| + 1;
  }

  // ---------- The plugin ----------

  datatype Proposal = Proposal(original: string, proposed: string, cas: string)

  /** The document is stored in one place; each call holds the lock. How a batch of changes is merged into a document,
      and whether it can be, is left open. */
  class Updatable<Batch> {
    const hash: string -> string
    const merge: (string, Batch) -> Option<string>
    var store: string

    method Changes(changes: Batch, loadFails: bool) returns (r: Option<Proposal>)
      ensures r.None? <==> loadFails || merge(store, changes).None?
      ensures r.Some? ==>
                && r.value.original == store && Some(r.value.proposed) == merge(store, changes)
                && r.value.cas == Fingerprint(hash, store, r.value.proposed)
    {
      if loadFails {
        return None;
      }
      var original := store;
      var proposed := merge(original, changes);
      if proposed.None? {
        return None;
      }
      return Some(Proposal(original, proposed.value, Fingerprint(hash, original, proposed.value)));
    }

    method Commit(proposed: string, cas: string, loadFails: bool, commitFails: bool) returns (ok: bool)
      modifies this
      ensures ok <==> !loadFails && !commitFails && Fingerprint(hash, old(store), proposed) == cas
      ensures store == if ok then proposed else old(store)
    {
      if loadFails {
        return false;
      }
      if Fingerprint(hash, store, proposed) != cas {
        return false;
      }
      if commitFails {
        return false;
      }
      store := proposed;
      return true;
    }
  }

  // ---------- Interleaved clients ----------

  /** What a client has asked for and got. */
  datatype Client<Batch> = Client(changes: Batch, proposal: Proposal)

  /** The stored document, the clients that have a proposal, and the batches committed so far. */
  datatype State<Batch> = State(store: string, clients: map<nat, Client<Batch>>, accepted: seq<Batch>)

  datatype Step<Batch> = Propose(client: nat, changes: Batch) | Commit(who: nat)

  function Next<Batch>(s: State<Batch>, step: Step<Batch>, hash: string -> string,
                       merge: (string, Batch) -> Option<string>)
    : State<Batch>
  {
    match step
    case Propose(client, changes) =>
      var proposed := merge(s.store, changes);
      if proposed.None? then s
      else
        var p := Proposal(s.store, proposed.value, Fingerprint(hash, s.store, proposed.value));
        s.(clients := s.clients[client := Client(changes, p)])
    case Commit(client) =>
      if client in s.clients && Accepts(s, s.clients[client].proposal, hash) then
        s.(store := s.clients[client].proposal.proposed, accepted := s.accepted + [s.clients[client].changes])
      else s
  }

  predicate Accepts<Batch>(s: State<Batch>, p: Proposal, hash: string -> string) {
    Fingerprint(hash, s.store, p.proposed) == p.cas
  }

  function Run<Batch>(start: string, steps: seq<Step<Batch>>, hash: string -> string,
                      merge: (string, Batch) -> Option<string>)
    : State<Batch>
  {
    if steps == [] then State(start, map[], [])
    else Next(Run(start, steps[..|steps| - 1], hash, merge), steps[|steps| - 1], hash, merge)
  }

  /** The documents stored at some time. */
  ghost predicate Stored<Batch>(doc: string, start: string, steps: seq<Step<Batch>>, hash: string -> string,
                                merge: (string, Batch) -> Option<string>)
  {
    exists i :: 0 <= i <= |steps| && Run(start, steps[..i], hash, merge).store == doc
  }

  /** No two different documents stored in the run look the same, unless nothing can be merged into the earlier one. */
  ghost predicate Distinguishable<Batch(!new)>(start: string, steps: seq<Step<Batch>>, hash: string -> string,
                                               merge: (string, Batch) -> Option<string>)
  {
    forall i, j :: 0 <= i < j <= |steps| ==>
      var a, b := Run(start, steps[..i], hash, merge).store, Run(start, steps[..j], hash, merge).store;
      Norm(a) == Norm(b) && a != b ==> forall batch :: merge(a, batch).None?
  }

  /** One batch after another merged into the document. */
  function Merged<Batch>(start: string, batches: seq<Batch>, merge: (string, Batch) -> Option<string>): Option<string> {
    if batches == [] then Some(start)
    else
      var before := Merged(start, batches[..|batches| - 1], merge);
      if before.None? then None else merge(before.value, batches[|batches| - 1])
  }

  /** What a client holds was computed from a document that was stored. */
  ghost predicate Honest<Batch>(c: Client<Batch>, start: string, steps: seq<Step<Batch>>, hash: string -> string,
                                merge: (string, Batch) -> Option<string>)
  {
    && Stored(c.proposal.original, start, steps, hash, merge)
    && merge(c.proposal.original, c.changes) == Some(c.proposal.proposed)
    && c.proposal.cas == Fingerprint(hash, c.proposal.original, c.proposal.proposed)
  }

  /** Whenever two documents stored in the run look the same, what can be merged into the earlier can be merged into the
      later, with the same result. */
  ghost predicate Interchangeable<Batch(!new)>(start: string, steps: seq<Step<Batch>>, hash: string -> string,
                                               merge: (string, Batch) -> Option<string>)
  {
    forall i, j :: 0 <= i < j <= |steps| ==>
      var a, b := Run(start, steps[..i], hash, merge).store, Run(start, steps[..j], hash, merge).store;
      Norm(a) == Norm(b) ==> forall batch :: merge(a, batch).Some? ==> merge(b, batch) == merge(a, batch)
  }

  /** The document is the accepted batches merged one after another, in the order of the commits. */
  ghost predicate Serial<Batch>(start: string, steps: seq<Step<Batch>>, hash: string -> string,
                                merge: (string, Batch) -> Option<string>)
  {
    var s := Run(start, steps, hash, merge);
    Merged(start, s.accepted, merge) == Some(s.store)
  }

  lemma {:induction false} EveryClientIsHonest<Batch>(start: string, steps: seq<Step<Batch>>, hash: string -> string,
                                                      merge: (string, Batch) -> Option<string>, c: nat)
    requires c in Run(start, steps, hash, merge).clients
    ensures Honest(Run(start, steps, hash, merge).clients[c], start, steps, hash, merge)
  {
    hide Run, Honest, Fingerprint, Stored;
    if steps == [] {
      StartOf(start, hash, merge);
      assert false;
    } else {
      var init, last := steps[..|steps| - 1], steps[|steps| - 1];
      LastStep(start, steps, hash, merge);
      var s := Run(start, init, hash, merge);
      if last.Propose? && last.client == c && merge(s.store, last.changes).Some? {
        StartsHonest(start, steps, hash, merge, last.changes);
      } else {
        EveryClientIsHonest(start, init, hash, merge, c);
        StaysHonest(s.clients[c], start, steps, hash, merge);
      }
    }
  }

  /** No lost update, if look-alikes are interchangeable. */
  lemma {:induction false} EveryRunIsSerial<Batch(!new)>(start: string, steps: seq<Step<Batch>>, hash: string -> string,
                                                         merge: (string, Batch) -> Option<string>)
    requires Injective(hash) && Interchangeable(start, steps, hash, merge)
    ensures Serial(start, steps, hash, merge)
  {
    hide Run, Honest, Fingerprint, Interchangeable, Merged, Accepts, Norm;
    if steps == [] {
      StartOf(start, hash, merge);
      NoneMerged(start, merge);
    } else {
      var init, last := steps[..|steps| - 1], steps[|steps| - 1];
      EarlierIsInterchangeable(start, steps, hash, merge);
      EveryRunIsSerial(start, init, hash, merge);
      LastStep(start, steps, hash, merge);
      var s := Run(start, init, hash, merge);
      if last.Commit? && last.who in s.clients && Accepts(s, s.clients[last.who].proposal, hash) {
        EveryClientIsHonest(start, init, hash, merge, last.who);
        CommitMerges(start, steps, hash, merge, s.clients[last.who]);
      }
    }
  }

  lemma NoneMerged<Batch>(start: string, merge: (string, Batch) -> Option<string>)
    ensures Merged(start, [], merge) == Some(start)
  {}

  lemma MergedOneMore<Batch>(start: string, batches: seq<Batch>, batch: Batch, merge: (string, Batch) -> Option<string>)
    ensures var before := Merged(start, batches, merge);
            Merged(start, batches + [batch], merge) == if before.None? then None else merge(before.value, batch)
  {
    assert (batches + [batch])[..|batches|] == batches;
  }

  lemma LastStep<Batch>(start: string, steps: seq<Step<Batch>>, hash: string -> string,
                        merge: (string, Batch) -> Option<string>)
    requires steps != []
    ensures Run(start, steps, hash, merge)
         == Next(Run(start, steps[..|steps| - 1], hash, merge), steps[|steps| - 1], hash, merge)
  {}

  lemma StartsHonest<Batch>(start: string, steps: seq<Step<Batch>>, hash: string -> string,
                            merge: (string, Batch) -> Option<string>, changes: Batch)
    requires steps != [] && merge(Run(start, steps[..|steps| - 1], hash, merge).store, changes).Some?
    ensures var doc := Run(start, steps[..|steps| - 1], hash, merge).store;
            var proposed := merge(doc, changes).value;
            Honest(Client(changes, Proposal(doc, proposed, Fingerprint(hash, doc, proposed))),
                   start, steps, hash, merge)
  {
    hide Run;
    var doc := Run(start, steps[..|steps| - 1], hash, merge).store;
    assert Stored(doc, start, steps, hash, merge);
  }

  lemma CommitMerges<Batch(!new)>(start: string, steps: seq<Step<Batch>>, hash: string -> string,
                                  merge: (string, Batch) -> Option<string>, c: Client<Batch>)
    requires Injective(hash) && steps != [] && Interchangeable(start, steps, hash, merge)
    requires Honest(c, start, steps[..|steps| - 1], hash, merge)
    requires var s := Run(start, steps[..|steps| - 1], hash, merge);
             Accepts(s, c.proposal, hash) && Merged(start, s.accepted, merge) == Some(s.store)
    ensures var s := Run(start, steps[..|steps| - 1], hash, merge);
            Merged(start, s.accepted + [c.changes], merge) == Some(c.proposal.proposed)
  {
    hide Run, Merged, Norm;
    var init := steps[..|steps| - 1];
    var s := Run(start, init, hash, merge);
    var i :| 0 <= i <= |init| && Run(start, init[..i], hash, merge).store == c.proposal.original;
    assert init[..i] == steps[..i] && init == steps[..|init|];
    AcceptedExactly(hash, c.proposal.original, s.store, c.proposal.proposed);
    assert merge(s.store, c.changes) == Some(c.proposal.proposed);
    MergedOneMore(start, s.accepted, c.changes, merge);
  }

  lemma EarlierIsInterchangeable<Batch(!new)>(start: string, steps: seq<Step<Batch>>, hash: string -> string,
                                              merge: (string, Batch) -> Option<string>)
    requires Interchangeable(start, steps, hash, merge) && steps != []
    ensures Interchangeable(start, steps[..|steps| - 1], hash, merge)
  {
    hide Run;
    var init := steps[..|steps| - 1];
    forall i | 0 <= i <= |init| ensures init[..i] == steps[..i] {}
  }

  lemma StaysHonest<Batch>(c: Client<Batch>, start: string, steps: seq<Step<Batch>>, hash: string -> string,
                           merge: (string, Batch) -> Option<string>)
    requires steps != [] && Honest(c, start, steps[..|steps| - 1], hash, merge)
    ensures Honest(c, start, steps, hash, merge)
  {
    var init := steps[..|steps| - 1];
    var i :| 0 <= i <= |init| && Run(start, init[..i], hash, merge).store == c.proposal.original;
    assert init[..i] == steps[..i];
  }

  /** An accepted commit overwrites exactly the document it was computed from. */
  lemma CommitOverwritesItsOriginal<Batch(!new)>(start: string, steps: seq<Step<Batch>>, hash: string -> string,
                                           merge: (string, Batch) -> Option<string>, c: Client<Batch>)
    requires Injective(hash) && steps != [] && Distinguishable(start, steps, hash, merge)
    requires Honest(c, start, steps[..|steps| - 1], hash, merge)
    requires Accepts(Run(start, steps[..|steps| - 1], hash, merge), c.proposal, hash)
    ensures Run(start, steps[..|steps| - 1], hash, merge).store == c.proposal.original
  {
    hide Run;
    var init := steps[..|steps| - 1];
    var i :| 0 <= i <= |init| && Run(start, init[..i], hash, merge).store == c.proposal.original;
    assert init[..i] == steps[..i] && init == steps[..|init|];
    AcceptedExactly(hash, c.proposal.original, Run(start, init, hash, merge).store, c.proposal.proposed);
  }

  lemma Unroll<Batch>(start: string, steps: seq<Step<Batch>>, step: Step<Batch>, hash: string -> string,
                      merge: (string, Batch) -> Option<string>)
    ensures Run(start, steps + [step], hash, merge) == Next(Run(start, steps, hash, merge), step, hash, merge)
  {
    assert (steps + [step])[..|steps|] == steps;
  }

  lemma StartOf<Batch>(doc: string, hash: string -> string, merge: (string, Batch) -> Option<string>)
    ensures Run(doc, [], hash, merge) == State(doc, map[], [])
  {}

  /** Two clients propose for the same document and commit one after the other: the result is serial exactly when the
      first commit changes what a fingerprint sees, or the second proposal does not depend on it. */
  lemma RaceIsSerialExactly<Batch>(doc: string, first: Batch, second: Batch, hash: string -> string,
                                   merge: (string, Batch) -> Option<string>, one: string, two: string)
    returns (steps: seq<Step<Batch>>)
    requires Injective(hash) && merge(doc, first) == Some(one) && merge(doc, second) == Some(two)
    ensures steps == [Propose(0, first), Propose(1, second), Commit(0), Commit(1)]
    ensures var s := Run(doc, steps, hash, merge);
            && (if Norm(one) == Norm(doc) then s.store == two && s.accepted == [first, second]
                else s.store == one && s.accepted == [first])
            && (Merged(doc, s.accepted, merge) == Some(s.store) <==>
                Norm(one) != Norm(doc) || merge(one, second) == Some(two))
  {
    hide Run, Norm, Fingerprint;
    steps := [];
    StartOf(doc, hash, merge);
    Unroll(doc, steps, Propose(0, first), hash, merge);
    steps := steps + [Propose(0, first)];
    Unroll(doc, steps, Propose(1, second), hash, merge);
    steps := steps + [Propose(1, second)];
    Unroll(doc, steps, Commit(0), hash, merge);
    steps := steps + [Commit(0)];
    assert Run(doc, steps, hash, merge).accepted == [first] && Run(doc, steps, hash, merge).store == one;
    Unroll(doc, steps, Commit(1), hash, merge);
    steps := steps + [Commit(1)];
    AcceptedExactly(hash, doc, one, two);
    assert [first][..0] == [] && [first, second][..1] == [first];
    assert Merged(doc, [first], merge) == Some(one);
  }

  // ---------- Exactly when commits are safe ----------

  /** If the step is a commit that is accepted, it overwrites the document it was computed from. */
  ghost predicate Overwrites<Batch>(s: State<Batch>, step: Step<Batch>, hash: string -> string) {
    step.Commit? && step.who in s.clients && Accepts(s, s.clients[step.who].proposal, hash) ==>
      s.clients[step.who].proposal.original == s.store
  }

  ghost predicate CommitsAreSafe<Batch>(start: string, steps: seq<Step<Batch>>, hash: string -> string,
                                        merge: (string, Batch) -> Option<string>)
  {
    forall i :: 0 <= i < |steps| ==> Overwrites(Run(start, steps[..i], hash, merge), steps[i], hash)
  }

  lemma DistinguishableIsSafe<Batch(!new)>(start: string, steps: seq<Step<Batch>>, hash: string -> string,
                                           merge: (string, Batch) -> Option<string>, i: nat)
    requires Injective(hash) && i < |steps| && Distinguishable(start, steps[..i + 1], hash, merge)
    ensures Overwrites(Run(start, steps[..i], hash, merge), steps[i], hash)
  {
    hide Run, Fingerprint, Norm, Honest, Distinguishable, Accepts;
    var upTo := steps[..i + 1];
    assert upTo[..|upTo| - 1] == steps[..i];
    var s := Run(start, steps[..i], hash, merge);
    if steps[i].Commit? && steps[i].who in s.clients && Accepts(s, s.clients[steps[i].who].proposal, hash) {
      EveryClientIsHonest(start, steps[..i], hash, merge, steps[i].who);
      CommitOverwritesItsOriginal(start, upTo, hash, merge, s.clients[steps[i].who]);
    }
  }

  function Who<Batch>(step: Step<Batch>): nat {
    if step.Propose? then step.client else step.who
  }

  /** Clients above all those that appear. */
  function Unused<Batch>(steps: seq<Step<Batch>>): (n: nat)
    ensures forall s <- steps :: Who(s) < n
  {
    if steps == [] then 0
    else
      var n, last := Unused(steps[..|steps| - 1]), Who(steps[|steps| - 1]);
      assert forall s <- steps :: s in steps[..|steps| - 1] || s == steps[|steps| - 1];
      if last < n then n else last + 1
  }

  lemma AnotherClientDoesNotMatter<Batch>(s: State<Batch>, step: Step<Batch>, hash: string -> string,
                                          merge: (string, Batch) -> Option<string>, f: nat, c: Client<Batch>)
    requires Who(step) != f
    ensures var more := s.(clients := s.clients[f := c]);
            var next := Next(s, step, hash, merge);
            Next(more, step, hash, merge) == next.(clients := next.clients[f := c])
  {
    hide Fingerprint;
    var more, next := s.(clients := s.clients[f := c]), Next(s, step, hash, merge);
    if step.Propose? && merge(s.store, step.changes).Some? {
      var proposed := merge(s.store, step.changes).value;
      var x := Client(step.changes, Proposal(s.store, proposed, Fingerprint(hash, s.store, proposed)));
      assert s.clients[f := c][step.client := x] == s.clients[step.client := x][f := c];
    }
  }

  /** A client that proposes on the side changes nothing for the others. */
  lemma {:induction false} OnTheSide<Batch>(start: string, before: seq<Step<Batch>>, after: seq<Step<Batch>>,
                                            hash: string -> string,
                                            merge: (string, Batch) -> Option<string>, f: nat, batch: Batch,
                                            proposed: string)
    requires merge(Run(start, before, hash, merge).store, batch) == Some(proposed) && forall s <- after :: Who(s) != f
    ensures var doc := Run(start, before, hash, merge).store;
            var c := Client(batch, Proposal(doc, proposed, Fingerprint(hash, doc, proposed)));
            var s := Run(start, before + after, hash, merge);
            Run(start, before + [Propose(f, batch)] + after, hash, merge) == s.(clients := s.clients[f := c])
    decreases |after|
  {
    hide Run, Fingerprint;
    var side := before + [Propose(f, batch)];
    var doc := Run(start, before, hash, merge).store;
    var c := Client(batch, Proposal(doc, proposed, Fingerprint(hash, doc, proposed)));
    if after == [] {
      assert before + after == before && side + after == side;
      Unroll(start, before, Propose(f, batch), hash, merge);
    } else {
      var init, last := after[..|after| - 1], after[|after| - 1];
      OnTheSide(start, before, init, hash, merge, f, batch, proposed);
      assert before + after == before + init + [last] && side + after == side + init + [last];
      Unroll(start, before + init, last, hash, merge);
      Unroll(start, side + init, last, hash, merge);
      hide Next;
      AnotherClientDoesNotMatter(Run(start, before + init, hash, merge), last, hash, merge, f, c);
    }
  }

  /** If a run stores two documents that look the same and something can be merged into the first, then some run has an
      accepted commit that overwrites a document it has not seen. */
  lemma LookAlikesAreUnsafe<Batch>(start: string, steps: seq<Step<Batch>>, hash: string -> string,
                                   merge: (string, Batch) -> Option<string>, i: nat, j: nat, batch: Batch)
    returns (bad: seq<Step<Batch>>)
    requires i < j <= |steps| && merge(Run(start, steps[..i], hash, merge).store, batch).Some?
    requires var a, b := Run(start, steps[..i], hash, merge).store, Run(start, steps[..j], hash, merge).store;
             a != b && Norm(a) == Norm(b)
    ensures !CommitsAreSafe(start, bad, hash, merge)
  {
    hide Run, Norm;
    var f := Unused(steps);
    var before, after := steps[..i], steps[i..j];
    var a, b := Run(start, before, hash, merge).store, Run(start, steps[..j], hash, merge).store;
    assert before + after == steps[..j];
    OnTheSide(start, before, after, hash, merge, f, batch, merge(a, batch).value);
    var side := before + [Propose(f, batch)] + after;
    bad := side + [Commit(f)];
    assert bad[..|side|] == side && bad[|side|] == Commit(f);
    assert !Overwrites(Run(start, side, hash, merge), Commit(f), hash);
  }

  /** Every accepted commit of every run overwrites the document it was computed from, if and only if no run stores two
      different documents that look the same and of which the earlier can be changed. */
  lemma SafeExactly<Batch(!new)>(start: string, hash: string -> string, merge: (string, Batch) -> Option<string>)
    requires Injective(hash)
    ensures (forall steps :: CommitsAreSafe(start, steps, hash, merge)) <==>
            (forall steps :: Distinguishable(start, steps, hash, merge))
  {
    if forall steps :: Distinguishable(start, steps, hash, merge) {
      forall steps ensures CommitsAreSafe(start, steps, hash, merge) {
        forall i | 0 <= i < |steps| ensures Overwrites(Run(start, steps[..i], hash, merge), steps[i], hash) {
          DistinguishableIsSafe(start, steps, hash, merge, i);
        }
      }
    } else {
      hide CommitsAreSafe, Run, Norm;
      var steps :| !Distinguishable(start, steps, hash, merge);
      var i, j :| 0 <= i < j <= |steps| &&
        var a, b := Run(start, steps[..i], hash, merge).store, Run(start, steps[..j], hash, merge).store;
        Norm(a) == Norm(b) && a != b && !(forall batch :: merge(a, batch).None?);
      var batch :| merge(Run(start, steps[..i], hash, merge).store, batch).Some?;
      var bad := LookAlikesAreUnsafe(start, steps, hash, merge, i, j, batch);
      assert !CommitsAreSafe(start, bad, hash, merge);
    }
  }

  // ---------- Exactly when runs are serial ----------

  /** If a run stores two documents that look the same and something merges differently into them, then some run is not
      serial. */
  lemma DifferentLookAlikesAreNotSerial<Batch>(start: string, steps: seq<Step<Batch>>, hash: string -> string,
                                               merge: (string, Batch) -> Option<string>, i: nat, j: nat, batch: Batch)
    returns (bad: seq<Step<Batch>>)
    requires i < j <= |steps|
    requires var a, b := Run(start, steps[..i], hash, merge).store, Run(start, steps[..j], hash, merge).store;
             Norm(a) == Norm(b) && merge(a, batch).Some? && merge(b, batch) != merge(a, batch)
    ensures !Serial(start, bad, hash, merge)
  {
    hide Run, Norm, Merged;
    var f := Unused(steps);
    var before, after := steps[..i], steps[i..j];
    var a := Run(start, before, hash, merge).store;
    assert before + after == steps[..j];
    OnTheSide(start, before, after, hash, merge, f, batch, merge(a, batch).value);
    var side := before + [Propose(f, batch)] + after;
    Unroll(start, side, Commit(f), hash, merge);
    MergedOneMore(start, Run(start, steps[..j], hash, merge).accepted, batch, merge);
    bad := if Serial(start, steps[..j], hash, merge) then side + [Commit(f)] else steps[..j];
  }

  /** Every run is serial, if and only if look-alikes are interchangeable in every run. */
  lemma SerialExactly<Batch(!new)>(start: string, hash: string -> string, merge: (string, Batch) -> Option<string>)
    requires Injective(hash)
    ensures (forall steps :: Serial(start, steps, hash, merge)) <==>
            (forall steps :: Interchangeable(start, steps, hash, merge))
  {
    hide Serial, Run, Norm;
    if forall steps :: Interchangeable(start, steps, hash, merge) {
      forall steps ensures Serial(start, steps, hash, merge) {
        EveryRunIsSerial(start, steps, hash, merge);
      }
    } else {
      var steps :| !Interchangeable(start, steps, hash, merge);
      var i, j :| 0 <= i < j <= |steps| &&
        var a, b := Run(start, steps[..i], hash, merge).store, Run(start, steps[..j], hash, merge).store;
        Norm(a) == Norm(b) && !(forall batch :: merge(a, batch).Some? ==> merge(b, batch) == merge(a, batch));
      var a, b := Run(start, steps[..i], hash, merge).store, Run(start, steps[..j], hash, merge).store;
      var batch :| merge(a, batch).Some? && merge(b, batch) != merge(a, batch);
      var bad := DifferentLookAlikesAreNotSerial(start, steps, hash, merge, i, j, batch);
      assert !Serial(start, bad, hash, merge);
    }
  }

  // ---------- A lost update ----------

  const OPEN := "{\n\"a\": \""
  const MIDDLE := "\",\n\"b\": \""
  const CLOSE := "\"\n}"

  /** A document with two keys, as AnyValue writes it. */
  function Render(a: string, b: string): string {
    OPEN + a + MIDDLE + b + CLOSE
  }

  /** What comes before the next quote. */
  function Until(s: string): (v: string)
    ensures v <= s
  {
    if s == "" || s[0] == '"' then "" else s[..1] + Until(s[1..])
  }

  function Parse(doc: string): Option<(string, string)> {
    if !(OPEN <= doc) then None
    else
      var a := Until(doc[|OPEN|..]);
      var rest := doc[|OPEN|..][|a|..];
      if !(MIDDLE <= rest) then None
      else
        var b := Until(rest[|MIDDLE|..]);
        if rest[|MIDDLE|..][|b|..] == CLOSE then Some((a, b)) else None
  }

  datatype Edit = SetA(value: string) | SetB(value: string)

  /** Changing one of the keys; values that would need escaping are not considered. */
  function SetKey(doc: string, edit: Edit): Option<string> {
    if '"' in edit.value || '\\' in edit.value then None
    else
      match Parse(doc)
      case None => None
      case Some((a, b)) => Some(match edit case SetA(v) => Render(v, b) case SetB(v) => Render(a, v))
  }

  lemma {:induction false} UntilQuote(v: string, rest: string)
    requires '"' !in v && rest != "" && rest[0] == '"'
    ensures Until(v + rest) == v
  {
    if v == "" {
      assert v + rest == rest;
    } else {
      UntilQuote(v[1..], rest);
      assert (v + rest)[1..] == v[1..] + rest && (v + rest)[..1] == v[..1];
      assert v == v[..1] + v[1..];
    }
  }

  lemma ParseInvertsRender(a: string, b: string)
    requires '"' !in a && '"' !in b
    ensures Parse(Render(a, b)) == Some((a, b))
  {
    hide Until;
    var doc := Render(a, b);
    assert doc[|OPEN|..] == a + (MIDDLE + b + CLOSE);
    UntilQuote(a, MIDDLE + b + CLOSE);
    assert doc[|OPEN|..][|a|..] == MIDDLE + (b + CLOSE);
    assert (MIDDLE + (b + CLOSE))[|MIDDLE|..] == b + CLOSE;
    UntilQuote(b, CLOSE);
    assert (b + CLOSE)[|b|..] == CLOSE;
  }

  /** One client takes the space out of a value, another sets the other key; both commits are accepted, and the first
      change is gone. */
  lemma UpdateCanBeLost(hash: string -> string) returns (steps: seq<Step<Edit>>)
    requires Injective(hash)
    ensures var start := Render("x: y", "1");
            var s := Run(start, steps, hash, SetKey);
            && s.accepted == [SetA("x:y"), SetB("2")] && s.store == Render("x: y", "2")
            && Merged(start, s.accepted, SetKey) == Some(Render("x:y", "2")) && s.store != Render("x:y", "2")
  {
    hide Render, Parse, Norm, Run;
    var doc, one, two, both := Render("x: y", "1"), Render("x:y", "1"), Render("x: y", "2"), Render("x:y", "2");
    ParseInvertsRender("x: y", "1");
    ParseInvertsRender("x:y", "1");
    ParseInvertsRender("x: y", "2");
    LooksTheSame("1");
    LooksTheSame("2");
    var first, second := SetA("x:y"), SetB("2");
    steps := RaceIsSerialExactly(doc, first, second, hash, SetKey, one, two);
    assert Merged(doc, [first, second], SetKey) == Some(both) by {
      assert [first, second][..1] == [first] && [first][..0] == [];
      assert Merged(doc, [], SetKey) == Some(doc) && Merged(doc, [first], SetKey) == Some(one);
      assert SetKey(one, second) == Some(both);
    }
  }

  lemma LooksTheSame(b: string)
    ensures Norm(Render("x: y", b)) == Norm(Render("x:y", b)) && Render("x: y", b) != Render("x:y", b)
  {
    hide Norm;
    var after := "y" + MIDDLE + b + CLOSE;
    SpaceAfterColonIsLost(OPEN + "x", after);
    assert Render("x: y", b) == OPEN + "x" + ": " + after;
    assert Render("x:y", b) == OPEN + "x" + ":" + after;
  }

  /** Clients call the plugin in any order, each with what it was given. */
  method Serve<Batch>(u: Updatable<Batch>, steps: seq<Step<Batch>>)
    returns (clients: map<nat, Client<Batch>>, accepted: seq<Batch>)
    modifies u
    ensures Run(old(u.store), steps, u.hash, u.merge) == State(u.store, clients, accepted)
  {
    clients, accepted := map[], [];
    for i := 0 to |steps|
      invariant Run(old(u.store), steps[..i], u.hash, u.merge) == State(u.store, clients, accepted)
    {
      assert steps[..i + 1] == steps[..i] + [steps[i]];
      Unroll(old(u.store), steps[..i], steps[i], u.hash, u.merge);
      match steps[i] {
        case Propose(client, changes) =>
          var p := u.Changes(changes, false);
          if p.Some? {
            clients := clients[client := Client(changes, p.value)];
          }
        case Commit(client) =>
          if client in clients {
            var ok := u.Commit(clients[client].proposal.proposed, clients[client].proposal.cas, false, false);
            if ok {
              accepted := accepted + [clients[client].changes];
            }
          }
      }
    }
    assert steps[..|steps|] == steps;
  }
}
