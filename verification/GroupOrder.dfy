/** Instance descriptions of a group and the order in which instances are destroyed (pkg/controller/group). */
module GroupOrder {
  import opened Wrappers

  const LOGICAL_ID_TAG := "infrakit.logical_id"
  const CONFIG_SHA_TAG := "infrakit.config.hash"
  const BOOTSTRAP := "bootstrap"

  datatype Description = Description(id: string, logicalID: Option<string>, tags: map<string, string>)

  /** The instance this controller itself runs on, by its logical ID or by its logical ID tag. */
  predicate IsSelf(inst: Description, self: Option<string>) {
    self.Some? &&
    if inst.logicalID.Some? && inst.logicalID.value == self.value then true
    else LOGICAL_ID_TAG in inst.tags && inst.tags[LOGICAL_ID_TAG] == self.value
  }

  /** Go's order on strings. */
  predicate Before(a: string, b: string) {
    b != "" && (a == "" || a[0] < b[0] || (a[0] == b[0] && Before(a[1..], b[1..])))
  }

  /** sortByID.Less; without settings there is no self. */
  predicate Less(a: Description, b: Description, self: Option<string>) {
    if IsSelf(a, self) then false
    else if IsSelf(b, self) then true
    else Before(a.id, b.id)
  }

  lemma {:induction false} BeforeIsTotal(a: string, b: string)
    ensures !(Before(a, b) && Before(b, a))
    ensures Before(a, b) || Before(b, a) || a == b
    ensures a == b ==> !Before(a, b)
  {
    if a != "" && b != "" {
      BeforeIsTotal(a[1..], b[1..]);
      assert a == a[..1] + a[1..] && b == b[..1] + b[1..];
    }
  }

  lemma {:induction false} BeforeIsTransitive(a: string, b: string, c: string)
    requires Before(a, b) && Before(b, c)
    ensures Before(a, c)
  {
    if a != "" && a[0] == b[0] == c[0] {
      BeforeIsTransitive(a[1..], b[1..], c[1..]);
    }
  }

  /** Neither is destroyed before the other. */
  predicate Tied(a: Description, b: Description, self: Option<string>) {
    !Less(a, b, self) && !Less(b, a, self)
  }

  /** A strict weak order: irreflexive, transitive, ties transitive; ties are equal IDs or two selves. */
  lemma LessIsStrictWeakOrder(a: Description, b: Description, c: Description, self: Option<string>)
    ensures !Less(a, a, self)
    ensures Less(a, b, self) && Less(b, c, self) ==> Less(a, c, self)
    ensures Tied(a, b, self) && Tied(b, c, self) ==> Tied(a, c, self)
    ensures Tied(a, b, self) <==>
              if IsSelf(a, self) || IsSelf(b, self) then IsSelf(a, self) && IsSelf(b, self) else a.id == b.id
  {
    BeforeIsTotal(a.id, a.id);
    BeforeIsTotal(a.id, b.id);
    BeforeIsTotal(b.id, c.id);
    if Before(a.id, b.id) && Before(b.id, c.id) {
      BeforeIsTransitive(a.id, b.id, c.id);
    }
  }

  lemma SelfIsLast(a: Description, b: Description, self: Option<string>)
    ensures !IsSelf(a, self) && IsSelf(b, self) ==> Less(a, b, self)
    ensures IsSelf(a, self) ==> !Less(a, b, self)
  {}

  predicate InOrder(list: seq<Description>, self: Option<string>) {
    forall i, j :: 0 <= i < j < |list| ==> !Less(list[j], list[i], self)
  }

  lemma NotLessChains(a: Description, b: Description, c: Description, self: Option<string>)
    requires !Less(b, a, self) && !Less(c, b, self)
    ensures !Less(c, a, self)
  {
    LessIsStrictWeakOrder(a, b, c, self);
    LessIsStrictWeakOrder(c, a, b, self);
    LessIsStrictWeakOrder(b, c, a, self);
  }

  /** If the first one is self, so are all. */
  lemma FirstSelfMeansAllSelf(list: seq<Description>, self: Option<string>, i: nat)
    requires InOrder(list, self) && i < |list| && IsSelf(list[0], self)
    ensures IsSelf(list[i], self)
  {
    if i > 0 {
      SelfIsLast(list[i], list[0], self);
    }
  }

  lemma InsertedInOrder(x: Description, list: seq<Description>, i: nat, self: Option<string>)
    requires InOrder(list, self) && i <= |list|
    requires forall k :: 0 <= k < i ==> Less(list[k], x, self)
    requires i < |list| ==> !Less(list[i], x, self)
    ensures InOrder(list[..i] + [x] + list[i..], self)
  {
    hide Less;
    forall k | 0 <= k < |list|
      ensures k < i ==> !Less(x, list[k], self)
      ensures i <= k ==> !Less(list[k], x, self)
    {
      LessIsStrictWeakOrder(x, list[k], x, self);
      if i < k {
        NotLessChains(x, list[i], list[k], self);
      }
    }
  }

  /** Where to put one more; Go's sort.Sort is any algorithm with the contract of SortByID. */
  method Insert(x: Description, list: seq<Description>, self: Option<string>) returns (out: seq<Description>)
    requires InOrder(list, self)
    ensures InOrder(out, self) && multiset(out) == multiset(list) + multiset{x}
  {
    var i := 0;
    while i < |list| && Less(list[i], x, self)
      invariant i <= |list|
      invariant forall k :: 0 <= k < i ==> Less(list[k], x, self)
    {
      i := i + 1;
    }
    out := list[..i] + [x] + list[i..];
    assert list == list[..i] + list[i..];
    InsertedInOrder(x, list, i, self);
  }

  method SortByID(list: seq<Description>, self: Option<string>) returns (sorted: seq<Description>)
    ensures InOrder(sorted, self) && multiset(sorted) == multiset(list)
  {
    sorted := [];
    for i := 0 to |list|
      invariant InOrder(sorted, self) && multiset(sorted) == multiset(list[..i])
    {
      sorted := Insert(list[i], sorted, self);
      assert list[..i + 1] == list[..i] + [list[i]];
    }
    assert list == list[..|list|];
  }

  // ---------- Listings ----------

  predicate Distinct(list: seq<Description>) {
    forall i, j :: 0 <= i < j < |list| ==> list[i].id != list[j].id
  }

  function Ids(list: seq<Description>): set<string> {
    set d | d in list :: d.id
  }

  lemma IdsStep(first: Description, rest: seq<Description>)
    ensures Ids([first] + rest) == {first.id} + Ids(rest)
  {}

  lemma DistinctStep(first: Description, rest: seq<Description>)
    ensures Distinct([first] + rest) <==> Distinct(rest) && first.id !in Ids(rest)
  {
    var list := [first] + rest;
    if Distinct(list) {
      forall i, j | 0 <= i < j < |rest| ensures rest[i].id != rest[j].id {
        assert list[i + 1].id != list[j + 1].id;
      }
      forall j | 0 <= j < |rest| ensures rest[j].id != first.id {
        assert list[0].id != list[j + 1].id;
      }
    } else {
      var i, j :| 0 <= i < j < |list| && list[i].id == list[j].id;
      assert list[j] == rest[j - 1] && (i > 0 ==> list[i] == rest[i - 1]);
    }
  }

  lemma {:induction false} DistinctIds(list: seq<Description>)
    ensures |Ids(list)| <= |list|
    ensures Distinct(list) <==> |Ids(list)| == |list|
  {
    hide Distinct;
    if list != [] {
      DistinctIds(list[1..]);
      DistinctStep(list[0], list[1..]);
      IdsStep(list[0], list[1..]);
      assert list == [list[0]] + list[1..];
    } else {
      assert Distinct([]) by { NoneIsDistinct(); }
    }
  }

  lemma NoneIsDistinct()
    ensures Distinct([]) && Ids([]) == {}
  {}

  lemma DistinctAppend(list: seq<Description>, d: Description)
    requires Distinct(list) && d.id !in Ids(list)
    ensures Distinct(list + [d]) && Ids(list + [d]) == Ids(list) + {d.id}
  {}
}
