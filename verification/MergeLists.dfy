/** `Node.merge_object_lists`: a dictionary-based merge against its declarative meaning. */
module MergeLists {
  import opened Substrings

  /** A persistent object or a proxy for one, by object id. */
  datatype Obj = Obj(oid: string, isReal: bool, payload: nat)

  function FirstWith(list: seq<Obj>, oid: string): Option<Obj> {
    if list == [] then None
    else
      var n := |list| - 1;
      var before := FirstWith(list[..n], oid);
      if before.None? && list[n].oid == oid then Some(list[n]) else before
  }

  function LastWith(list: seq<Obj>, oid: string): Option<Obj> {
    if list == [] then None
    else
      var n := |list| - 1;
      if list[n].oid == oid then Some(list[n]) else LastWith(list[..n], oid)
  }

  function FirstReal(list: seq<Obj>, oid: string): Option<Obj> {
    if list == [] then None
    else
      var n := |list| - 1;
      var before := FirstReal(list[..n], oid);
      if before.None? && list[n].oid == oid && list[n].isReal then Some(list[n]) else before
  }

  function OrElse(a: Option<Obj>, b: Option<Obj>): Option<Obj> { if a.Some? then a else b }

  /** What the merge holds for an id, whatever the lists: the last entry of the first list, or else the first of
      the second; if that is a proxy, the first real object of the second list takes its place. */
  function Chosen(list1: seq<Obj>, list2: seq<Obj>, oid: string): Option<Obj> {
    var base := OrElse(LastWith(list1, oid), FirstWith(list2, oid));
    if base.Some? && !base.value.isReal then OrElse(FirstReal(list2, oid), base) else base
  }

  /** Ids in order of first appearance. */
  function Order(list: seq<Obj>): seq<string> {
    if list == [] then []
    else
      var n := |list| - 1;
      if list[n].oid in Order(list[..n]) then Order(list[..n]) else Order(list[..n]) + [list[n].oid]
  }

  /** The entries of the second list whose id is in neither the first list nor an earlier entry. */
  function Added(list1: seq<Obj>, list2: seq<Obj>): seq<Obj> {
    if list2 == [] then []
    else
      var n := |list2| - 1;
      var x := list2[n];
      Added(list1, list2[..n]) + (if x.oid in Order(list1 + list2[..n]) then [] else [x])
  }

  lemma {:induction false} OrderIsKeys(list: seq<Obj>, oid: string)
    ensures oid in Order(list) <==> FirstWith(list, oid).Some?
    ensures oid in Order(list) <==> LastWith(list, oid).Some?
  {
    if list != [] { OrderIsKeys(list[..|list| - 1], oid); }
  }

  lemma Snoc(list: seq<Obj>, x: Obj)
    ensures (list + [x])[..|list + [x]| - 1] == list && (list + [x])[|list + [x]| - 1] == x
  {
  }

  lemma {:induction false} ConcatWith(a: seq<Obj>, b: seq<Obj>, oid: string)
    ensures FirstWith(a + b, oid) == OrElse(FirstWith(a, oid), FirstWith(b, oid))
    ensures FirstReal(a + b, oid) == OrElse(FirstReal(a, oid), FirstReal(b, oid))
    decreases |b|
  {
    if b == [] { assert a + b == a; }
    else {
      var n := |b| - 1;
      ConcatWith(a, b[..n], oid);
      Snoc(a + b[..n], b[n]);
      assert a + b == (a + b[..n]) + [b[n]];
    }
  }

  /** The merge, as the two loops compute it. */
  method MergeObjectLists(list1: seq<Obj>, list2: seq<Obj>) returns (result: seq<Obj>, added: seq<Obj>)
    ensures |result| == |Order(list1 + list2)|
    ensures forall i | 0 <= i < |result| :: Some(result[i]) == Chosen(list1, list2, Order(list1 + list2)[i])
    ensures added == Added(list1, list2)
  {
    hide Order, Added, Chosen;
    // An insertion-ordered dictionary: its keys in order, and its entries.
    var order: seq<string>, table: map<string, Obj> := [], map[];
    EmptyLists();
    for i := 0 to |list1|
      invariant order == Order(list1[..i])
      invariant forall oid :: Get(table, oid) == LastWith(list1[..i], oid)
      invariant forall oid :: oid in order <==> oid in table
    {
      var cur := list1[i];
      assert list1[..i + 1] == list1[..i] + [cur];
      OrderSnoc(list1[..i], cur);
      Snoc(list1[..i], cur);
      if cur.oid !in table { order := order + [cur.oid]; }
      table := table[cur.oid := cur];
    }
    assert list1[..|list1|] == list1;
    added := [];
    assert list2[..0] == [] && list1 + [] == list1;
    ChosenEmpty(list1);
    for i := 0 to |list2|
      invariant order == Order(list1 + list2[..i])
      invariant forall oid :: Get(table, oid) == Chosen(list1, list2[..i], oid)
      invariant forall oid :: oid in order <==> oid in table
      invariant added == Added(list1, list2[..i])
    {
      var cur := list2[i];
      assert list2[..i + 1] == list2[..i] + [cur];
      assert list1 + list2[..i + 1] == (list1 + list2[..i]) + [cur];
      OrderSnoc(list1 + list2[..i], cur);
      AddedSnoc(list1, list2[..i], cur);
      ghost var before := table;
      forall oid ensures Chosen(list1, list2[..i + 1], oid) == Next(Get(before, oid), cur, oid) {
        ChosenSnoc(list1, list2[..i], cur, oid);
      }
      if cur.oid !in table {
        order := order + [cur.oid];
        table := table[cur.oid := cur];
        added := added + [cur];
      } else if !table[cur.oid].isReal && cur.isReal {
        table := table[cur.oid := cur];
      }
      assert forall oid :: Get(table, oid) == Next(Get(before, oid), cur, oid);
    }
    assert list2[..|list2|] == list2;
    result := seq(|order|, i requires 0 <= i < |order| && order[i] in table => table[order[i]]);
    forall i | 0 <= i < |result| ensures Some(result[i]) == Chosen(list1, list2, order[i]) {
      assert Get(table, order[i]) == Chosen(list1, list2, order[i]);
    }
  }

  function Get(table: map<string, Obj>, oid: string): Option<Obj> { if oid in table then Some(table[oid]) else None }

  /** How one entry of the second list changes the entry of an id. */
  function Next(entry: Option<Obj>, cur: Obj, oid: string): Option<Obj> {
    if cur.oid != oid then entry
    else if entry.None? || (!entry.value.isReal && cur.isReal) then Some(cur)
    else entry
  }

  lemma {:induction false} RealHasFirst(list: seq<Obj>, oid: string)
    ensures FirstReal(list, oid).Some? ==> FirstWith(list, oid).Some? && FirstReal(list, oid).value.isReal
    ensures FirstWith(list, oid).Some? && FirstWith(list, oid).value.isReal ==>
              FirstReal(list, oid) == FirstWith(list, oid)
  {
    if list != [] { RealHasFirst(list[..|list| - 1], oid); }
  }

  lemma ChosenSnoc(list1: seq<Obj>, list2: seq<Obj>, cur: Obj, oid: string)
    ensures Chosen(list1, list2 + [cur], oid) == Next(Chosen(list1, list2, oid), cur, oid)
  {
    Snoc(list2, cur);
    RealHasFirst(list2, oid);
  }

  lemma ChosenEmpty(list1: seq<Obj>)
    ensures forall oid :: Chosen(list1, [], oid) == LastWith(list1, oid)
    ensures Added(list1, []) == []
  {
  }

  lemma EmptyLists()
    ensures Order([]) == []
  {
  }

  lemma OrderSnoc(list: seq<Obj>, x: Obj)
    ensures Order(list + [x]) == if x.oid in Order(list) then Order(list) else Order(list) + [x.oid]
  {
    Snoc(list, x);
  }

  lemma AddedSnoc(list1: seq<Obj>, list2: seq<Obj>, x: Obj)
    ensures Added(list1, list2 + [x]) == Added(list1, list2) + (if x.oid in Order(list1 + list2) then [] else [x])
  {
    Snoc(list2, x);
  }

  ghost predicate UniqueIds(list: seq<Obj>) { forall i, j | 0 <= i < j < |list| :: list[i].oid != list[j].oid }

  lemma {:induction false} UniqueFirstIsLast(list: seq<Obj>, oid: string)
    requires UniqueIds(list)
    ensures FirstWith(list, oid) == LastWith(list, oid)
    ensures FirstWith(list, oid).Some? ==>
              exists i :: 0 <= i < |list| && list[i] == FirstWith(list, oid).value && list[i].oid == oid
  {
    if list != [] {
      UniqueFirstIsLast(list[..|list| - 1], oid);
    }
  }

  lemma {:induction false} UniqueRealIsFirst(list: seq<Obj>, oid: string)
    requires UniqueIds(list)
    ensures FirstReal(list, oid).Some? ==> FirstReal(list, oid) == FirstWith(list, oid)
  {
    if list != [] {
      UniqueRealIsFirst(list[..|list| - 1], oid);
      RealHasFirst(list[..|list| - 1], oid);
      UniqueFirstIsLast(list[..|list| - 1], oid);
    }
  }

  /** With unique ids in the first list, the entry of an id is the first real object of both lists together,
      or else the first entry. */
  lemma MergePrefersReal(list1: seq<Obj>, list2: seq<Obj>, oid: string)
    requires UniqueIds(list1)
    ensures Chosen(list1, list2, oid) == OrElse(FirstReal(list1 + list2, oid), FirstWith(list1 + list2, oid))
  {
    ConcatWith(list1, list2, oid);
    UniqueFirstIsLast(list1, oid);
    UniqueRealIsFirst(list1, oid);
    RealHasFirst(list1, oid);
    RealHasFirst(list2, oid);
  }

  lemma {:induction false} LastIsReal(list: seq<Obj>, oid: string)
    ensures LastWith(list, oid).Some? && LastWith(list, oid).value.isReal ==> FirstReal(list, oid).Some?
    ensures LastWith(list, oid).Some? <==> FirstWith(list, oid).Some?
  {
    if list != [] { LastIsReal(list[..|list| - 1], oid); }
  }

  /** For a given first list the merge prefers the first real object, whatever the second list, exactly when
      the last entry of the id in the first list is its first real one, or, when none is real, its first. */
  lemma MergePrefersRealIff(list1: seq<Obj>, oid: string)
    ensures (forall list2 :: Chosen(list1, list2, oid)
                  == OrElse(FirstReal(list1 + list2, oid), FirstWith(list1 + list2, oid)))
            <==> LastWith(list1, oid) == OrElse(FirstReal(list1, oid), FirstWith(list1, oid))
  {
    hide LastWith, FirstReal, FirstWith;
    LastIsReal(list1, oid);
    RealHasFirst(list1, oid);
    if LastWith(list1, oid) == OrElse(FirstReal(list1, oid), FirstWith(list1, oid)) {
      forall list2
        ensures Chosen(list1, list2, oid) == OrElse(FirstReal(list1 + list2, oid), FirstWith(list1 + list2, oid))
      {
        ConcatWith(list1, list2, oid);
        RealHasFirst(list2, oid);
      }
    } else {
      ChosenEmpty(list1);
      assert list1 + [] == list1;
      assert Chosen(list1, [], oid) != OrElse(FirstReal(list1 + [], oid), FirstWith(list1 + [], oid));
    }
  }

  /** Without unique ids a real object of the first list can be lost to a later proxy. */
  lemma DuplicateLosesReal()
    ensures var a, p := Obj("a", true, 0), Obj("a", false, 1);
            Chosen([a, p], [], "a") == Some(p) && FirstReal([a, p], "a") == Some(a)
  {
    var a, p := Obj("a", true, 0), Obj("a", false, 1);
    assert [a, p][..1] == [a] && [a][..0] == [];
  }

  /** Nothing added was in the first list, and no id is added twice. */
  lemma {:induction false} AddedIsNew(list1: seq<Obj>, list2: seq<Obj>, x: Obj)
    ensures x in Added(list1, list2) <==> FirstWith(list1, x.oid).None? && FirstWith(list2, x.oid) == Some(x)
    decreases |list2|
  {
    hide Order;
    if list2 != [] {
      var n := |list2| - 1;
      AddedIsNew(list1, list2[..n], x);
      OrderIsKeys(list1 + list2[..n], list2[n].oid);
      ConcatWith(list1, list2[..n], list2[n].oid);
      FirstWithOid(list2[..n], x.oid);
    }
  }

  lemma {:induction false} FirstWithOid(list: seq<Obj>, oid: string)
    ensures FirstWith(list, oid).Some? ==> FirstWith(list, oid).value.oid == oid
  {
    if list != [] { FirstWithOid(list[..|list| - 1], oid); }
  }

  function Ids(list: seq<Obj>): seq<string> { seq(|list|, i requires 0 <= i < |list| => list[i].oid) }

  /** The merged list is the ids of the first list in order of first appearance, each once,
      followed by the added ones in the order in which they were added. */
  lemma {:induction false} AddedFollowInOrder(list1: seq<Obj>, list2: seq<Obj>)
    ensures Order(list1 + list2) == Order(list1) + Ids(Added(list1, list2))
    decreases |list2|
  {
    hide Order, Added, Ids;
    if list2 == [] {
      assert list1 + list2 == list1;
      ChosenEmpty(list1);
      IdsSnoc([], Obj("", false, 0));
    } else {
      var n := |list2| - 1;
      var front, x := list2[..n], list2[n];
      AddedFollowInOrder(list1, front);
      assert list2 == front + [x];
      assert list1 + list2 == (list1 + front) + [x];
      OrderSnoc(list1 + front, x);
      AddedSnoc(list1, front, x);
      IdsSnoc(Added(list1, front), x);
      assert Added(list1, front) + [] == Added(list1, front);
    }
  }

  lemma IdsSnoc(list: seq<Obj>, x: Obj)
    ensures Ids([]) == [] && Ids(list + [x]) == Ids(list) + [x.oid]
  {
  }

  lemma {:induction false} OrderIsDistinct(list: seq<Obj>)
    ensures forall i, j | 0 <= i < j < |Order(list)| :: Order(list)[i] != Order(list)[j]
  {
    if list != [] { OrderIsDistinct(list[..|list| - 1]); }
  }
}
