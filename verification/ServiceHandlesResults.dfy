/**
 The handle allocation as a whole: exactly when it conserves the services, who goes where, and where
 it falls short of its documentation.
 */
module ServiceHandlesResults {
  import opened Wrappers
  import opened ServiceHandles
  import opened ServiceHandlesTheorems
  import opened ServiceHandlesTable

  // The services the walk takes from the whole list, and those it leaves.
  function Placing(store: seq<Service>): (r: seq<Id>)
    ensures Within(|store|, r)
    ensures forall id :: id in r ==> Explicit(store, id)
  {
    Visited(store, Ids(|store|))
  }

  function Remaining(store: seq<Service>): (r: seq<Id>)
    ensures Within(|store|, r)
  {
    LeftOver(store, Ids(|store|))
  }

  // The table after the walk.
  function Walked(store: seq<Service>, max: nat): Result<Slots> {
    PlaceAll(store, Placing(store), EmptySlots(max))
  }

  // No service that the walk visits comes after an equal one. It takes a look at the list alone:
  // which positions are visited depends on which are explicit.
  predicate VisitedFirst(store: seq<Service>) {
    forall u, v :: 0 <= u < v < |store| && store[u] == store[v] ==> v !in Placing(store)
  }

  lemma DistinctIsEnough(store: seq<Service>)
    requires Distinct(store)
    ensures VisitedFirst(store)
  {
  }

  // What the removals of the whole walk leave.
  function Unremoved(store: seq<Service>): (r: seq<Id>)
    ensures Within(|store|, r)
  {
    LeftAfter(store, [], Ids(|store|))
  }

  lemma WalkOfAny(store: seq<Service>, max: nat)
    ensures Walk(store, Ids(|store|), 0, EmptySlots(max)) ==
            match Walked(store, max) case Err(e) => Err(e) case Ok(placed) => Ok((Unremoved(store), placed))
  {
    hide Walk, PlaceAll, Visited, LeftAfter;
    assert [] + Ids(|store|) == Ids(|store|);
    WalkVisits(store, [], Ids(|store|), EmptySlots(max));
  }

  lemma UnremovedWhenFirst(store: seq<Service>)
    requires VisitedFirst(store)
    ensures Unremoved(store) == Remaining(store)
  {
    hide Visited, LeftOver, LeftAfter;
    assert [] + Ids(|store|) == Ids(|store|);
    forall v | v in Placing(store)
      ensures FirstOfKind(store, v)
    {
    }
    LeftWhenFirst(store, [], Ids(|store|));
    assert [] + LeftOver(store, Ids(|store|)) == LeftOver(store, Ids(|store|));
  }

  lemma WalkOfAll(store: seq<Service>, max: nat)
    requires VisitedFirst(store)
    ensures Walk(store, Ids(|store|), 0, EmptySlots(max)) ==
            match Walked(store, max) case Err(e) => Err(e) case Ok(placed) => Ok((Remaining(store), placed))
  {
    hide Walk, Walked, Remaining, Unremoved, VisitedFirst;
    WalkOfAny(store, max);
    UnremovedWhenFirst(store);
  }

  lemma {:induction false} AllFree(slots: Slots, i: nat)
    requires i <= |slots| && forall j :: 0 <= j < |slots| ==> slots[j] == None
    ensures |FreeFrom(slots, i)| == |slots| - i
    decreases |slots| - i
  {
    if i < |slots| {
      AllFree(slots, i + 1);
    }
  }

  lemma DistinctParts(a: seq<Id>, b: seq<Id>, n: nat)
    requires multiset(a) + multiset(b) == multiset(Ids(n))
    ensures Distinct(b) && |a| + |b| == n
    ensures forall id :: 0 <= id < n ==> id in a || id in b
    ensures forall id :: id in a ==> id !in b
  {
    OncePerId(n);
    forall i, j | 0 <= i < j < |b|
      ensures b[i] != b[j]
    {
      assert b == b[..j] + [b[j]] + b[j + 1..];
      assert multiset(b)[b[j]] == multiset(b[..j])[b[j]] + 1 + multiset(b[j + 1..])[b[j]];
      assert (multiset(a) + multiset(b))[b[j]] <= 1;
      assert b[i] == b[..j][i] && b[..j][i] in multiset(b[..j]);
    }
    forall id | 0 <= id < n
      ensures id in a || id in b
    {
      assert Ids(n)[id] == id;
      assert id in multiset(Ids(n));
    }
    forall id | id in a
      ensures id !in b
    {
      assert id in multiset(a) && id in multiset(Ids(n));
      assert id in Ids(n);
    }
    assert |multiset(a) + multiset(b)| == |multiset(Ids(n))|;
  }

  lemma {:induction false} OncePerId(n: nat)
    ensures forall id: Id :: multiset(Ids(n))[id] == if id < n then 1 else 0
  {
    if n == 0 {
      assert Ids(0) == [];
    } else {
      OncePerId(n - 1);
      assert Ids(n) == Ids(n - 1) + [n - 1];
      assert n - 1 !in Ids(n - 1);
    }
  }

  lemma ReadyToFill(store: seq<Service>, max: nat)
    requires |store| <= max && Walked(store, max).Ok?
    ensures var placed := Walked(store, max).value;
            && |placed| == max && Ready(store, Remaining(store), placed, 0) && AtOwnHandle(store, placed)
            && |Remaining(store)| <= |FreeFrom(placed, 0)|
            && (forall id :: 0 <= id < |store| ==> id in Placing(store) || id in Remaining(store))
            && (forall id :: id in Placing(store) ==> id !in Remaining(store))
            && (forall id :: id in Placing(store) ==>
                  Placeable(store, id, max) && placed[Spot(store, id, max)] == Some(id))
            && (forall j :: 0 <= j < max && placed[j].Some? ==> placed[j].value in Placing(store))
  {
    hide Visited, LeftOver, PlaceAll, Explicit;
    VisitedAndLeft(store, Ids(|store|));
    DistinctParts(Placing(store), Remaining(store), |store|);
    AllFree(EmptySlots(max), 0);
    PlacedAt(store, Placing(store), EmptySlots(max));
  }

  // ---------------------------------------------------------------- theorems

  // If every visited service is the first of its kind, the allocation goes through exactly when the
  // services fit the table and the visited ones carry handles that name different positions of it.
  lemma SucceedsExactly(store: seq<Service>, max: nat)
    requires VisitedFirst(store)
    ensures Allocate(store, max).Ok? <==>
            |store| == 0 || (|store| <= max && AllPlaceable(store, Placing(store), EmptySlots(max)))
  {
    hide Walk, PlaceAll, Visited, LeftOver, AllPlaceable, Explicit, Fill;
    if 0 < |store| <= max {
      WalkOfAll(store, max);
      PlacesExactly(store, Placing(store), EmptySlots(max));
      if Walked(store, max).Ok? {
        ReadyToFill(store, max);
        FillWorks(store, Remaining(store), Walked(store, max).value, 0);
      }
    }
  }

  lemma Allocated(store: seq<Service>, max: nat)
    requires VisitedFirst(store) && store != [] && Allocate(store, max).Ok?
    ensures |store| <= max && Walked(store, max).Ok?
    ensures var placed := Walked(store, max).value;
            && Ready(store, Remaining(store), placed, 0)
            && Allocate(store, max).value.1 == Filled(placed, Remaining(store), 0)
            && FillsAndEncodes(store, placed, 0, Allocate(store, max).value.0, Filled(placed, Remaining(store), 0))
            && IsFilling(placed, Remaining(store), FreeFrom(placed, 0), Filled(placed, Remaining(store), 0))
  {
    hide Walk, PlaceAll, Visited, LeftOver, Explicit, Fill, Filled, IsFilling, FillsAndEncodes;
    WalkOfAll(store, max);
    ReadyToFill(store, max);
    FillWorks(store, Remaining(store), Walked(store, max).value, 0);
    SmallestFreeInOrder(Walked(store, max).value, Remaining(store), 0);
  }

  // Every collected service stands in the table exactly once.
  predicate Conserved(store: seq<Service>, slots: Slots) {
    NoRepeat(slots) && forall id :: 0 <= id < |store| ==> Some(id) in slots
  }

  lemma ConservedWhenFirst(store: seq<Service>, max: nat)
    requires VisitedFirst(store) && store != [] && Allocate(store, max).Ok?
    ensures Conserved(store, Allocate(store, max).value.1)
  {
    hide Allocate, Walk, PlaceAll, Visited, LeftOver, Explicit, Fill, Filled, Walked;
    Allocated(store, max);
    ReadyToFill(store, max);
    var placed := Walked(store, max).value;
    var slots := Allocate(store, max).value.1;
    var free := FreeFrom(placed, 0);
    forall id | 0 <= id < |store|
      ensures Some(id) in slots
    {
      if id in Placing(store) {
        var spot := Spot(store, id, max);
        assert spot !in free;
        assert slots[spot] == Some(id);
      } else {
        var m :| 0 <= m < |Remaining(store)| && Remaining(store)[m] == id;
        assert slots[free[m]] == Some(id);
      }
    }
  }

  // Filling adds to the table none but the services of its list.
  lemma {:induction false} FillMembers(store: seq<Service>, list: seq<Id>, slots: Slots, i: nat)
    requires i <= |slots| && IdsIn(|store|, list, slots) && Fill(store, list, slots, i).Ok?
    ensures var filled := Fill(store, list, slots, i).value.1;
            && |filled| == |slots|
            && forall k :: 0 <= k < |filled| && filled[k].Some? ==>
                 filled[k].value < |store| && (filled[k] in slots || filled[k].value in list)
    decreases |slots| - i
  {
    hide EncodeHandle;
    if i < |slots| {
      var (s1, l1, f1) := FillOne(store, list, slots, i).value;
      FillMembers(s1, l1, f1, i + 1);
      assert forall o :: o in f1 ==> o in slots || (list != [] && o == Some(list[0]));
      assert forall id :: id in l1 ==> id in list;
    }
  }

  // What a successful allocation holds, equal services or not.
  lemma OnlyPlacedOrKept(store: seq<Service>, max: nat)
    requires store != [] && Allocate(store, max).Ok?
    ensures |store| <= max && Walked(store, max).Ok?
    ensures var slots := Allocate(store, max).value.1;
            && |slots| == max
            && forall k :: 0 <= k < max && slots[k].Some? ==>
                 && slots[k].value < |store|
                 && (slots[k].value in Placing(store) || slots[k].value in Unremoved(store))
  {
    hide Walk, Placing, Unremoved, Explicit, Fill, PlaceAll;
    WalkOfAny(store, max);
    WalkIds(store, Ids(|store|), 0, EmptySlots(max));
    PlacedAt(store, Placing(store), EmptySlots(max));
    var placed := Walked(store, max).value;
    FillMembers(store, Unremoved(store), placed, 0);
  }

  // Visited services of a walk that goes through all differ.
  lemma VisitedDiffer(store: seq<Service>, max: nat)
    requires Walked(store, max).Ok?
    ensures AllDiffer(store, Placing(store))
  {
    hide PlaceAll, Visited;
    PlacesExactly(store, Placing(store), EmptySlots(max));
    forall a, b | a in Placing(store) && b in Placing(store) && a != b
      ensures store[a] != store[b]
    {
      var ids := Placing(store);
      var i :| 0 <= i < |ids| && ids[i] == a;
      var j :| 0 <= j < |ids| && ids[j] == b;
      assert Spot(store, ids[i], max) != Spot(store, ids[j], max);
    }
  }

  lemma IdsAscend(n: nat)
    ensures Ascending(Ids(n))
  {
  }

  // The least service equal to v is removed when v is visited.
  lemma LeastRemoved(store: seq<Service>, u: Id, v: Id) returns (x: Id)
    requires u < v < |store| && store[u] == store[v] && v in Placing(store)
    requires AllDiffer(store, Placing(store))
    ensures x < v && store[x] == store[v] && x !in Unremoved(store)
  {
    hide Visited, LeftAfter, RemoveFirst, Ascending, Explicit;
    var ids := Ids(|store|);
    IdsAscend(|store|);
    assert ids[u] == u && ids[v] == v;
    x := RemovesLeast(store, ids, v);
    assert [] + ids == ids;
    LeastIsGone(store, [], ids, x, v);
  }

  lemma OneIsLost(store: seq<Service>, max: nat, u: Id, v: Id) returns (x: Id)
    requires store != [] && Allocate(store, max).Ok?
    requires u < v < |store| && store[u] == store[v] && v in Placing(store)
    ensures x < |store| && Some(x) !in Allocate(store, max).value.1
  {
    hide Allocate, Walked, Placing, Unremoved;
    OnlyPlacedOrKept(store, max);
    VisitedDiffer(store, max);
    x := LeastRemoved(store, u, v);
    assert x !in Placing(store);
  }

  // Conservation, exactly: whenever the allocation goes through, every collected service stands in
  // the table once if and only if no visited service comes after an equal one. Otherwise the removal
  // has hit the wrong entry.
  lemma EveryServiceOnce(store: seq<Service>, max: nat)
    requires store != [] && Allocate(store, max).Ok?
    ensures var slots := Allocate(store, max).value.1;
            && |slots| == max
            && (forall j :: 0 <= j < |slots| && slots[j].Some? ==> slots[j].value < |store|)
            && (Conserved(store, slots) <==> VisitedFirst(store))
  {
    hide Allocate, Placing;
    OnlyPlacedOrKept(store, max);
    if VisitedFirst(store) {
      ConservedWhenFirst(store, max);
    } else {
      var u, v :| 0 <= u < v < |store| && store[u] == store[v] && v in Placing(store);
      var x := OneIsLost(store, max, u, v);
    }
  }

  // A visited service gets the position its handle names; the others get the free positions, the
  // smallest first, in the order of the list.
  lemma WhoGoesWhere(store: seq<Service>, max: nat)
    requires VisitedFirst(store) && store != [] && Allocate(store, max).Ok?
    ensures Walked(store, max).Ok? && |Walked(store, max).value| == max
    ensures var slots := Allocate(store, max).value.1;
            var free := FreeFrom(Walked(store, max).value, 0);
            && |slots| == max && |Remaining(store)| <= |free|
            && (forall id :: id in Placing(store) ==>
                  Placeable(store, id, max) && slots[Spot(store, id, max)] == Some(id))
            && (forall m :: 0 <= m < |Remaining(store)| ==> slots[free[m]] == Some(Remaining(store)[m]))
            && (forall j :: 0 <= j < max ==>
                  (j in free <==> forall id :: id in Placing(store) ==> Spot(store, id, max) != j))
  {
    hide Allocate, Walk, PlaceAll, Visited, LeftOver, Explicit, Fill, Filled, Walked;
    Allocated(store, max);
    ReadyToFill(store, max);
    var placed := Walked(store, max).value;
    var free := FreeFrom(placed, 0);
    forall id | id in Placing(store)
      ensures Allocate(store, max).value.1[Spot(store, id, max)] == Some(id)
    {
      assert Spot(store, id, max) !in free;
    }
    forall j | 0 <= j < max
      ensures j in free <==> forall id :: id in Placing(store) ==> Spot(store, id, max) != j
    {
      FreeMembers(placed, 0, j);
      if placed[j].Some? {
        assert placed[j].value in Placing(store);
      }
    }
  }

  lemma {:induction false} FreeMembers(slots: Slots, i: nat, j: nat)
    requires i <= |slots|
    ensures j in FreeFrom(slots, i) <==> i <= j < |slots| && slots[j] == None
    decreases |slots| - i
  {
    if i < |slots| {
      FreeMembers(slots, i + 1, j);
      if j == i && slots[i] == None {
        assert FreeFrom(slots, i)[0] == i;
      }
      assert FreeFrom(slots, i) == (if slots[i] == None then [i] else []) + FreeFrom(slots, i + 1);
    }
  }

  // The number each entry carries: its own handle if the walk placed it, else its position counted
  // from one. Nothing else in the dictionary changes.
  lemma HandlesGiven(store: seq<Service>, max: nat)
    requires VisitedFirst(store) && store != [] && Allocate(store, max).Ok?
    ensures var (after, slots) := Allocate(store, max).value;
            && |after| == |store| && |slots| == max
            && forall j :: 0 <= j < max && slots[j].Some? ==>
                 var id := slots[j].value;
                 && id < |store|
                 && (id in Placing(store) ==> Placeable(store, id, max) && Spot(store, id, max) == j)
                 && after[id] == store[id].(handle := Text(EncodeHandle(
                      if id in Placing(store) then store[id].handle.n else j + 1, store[id].version)))
  {
    hide Allocate, Walk, PlaceAll, Visited, LeftOver, Explicit, Fill, Filled, Walked, EncodeHandle;
    Allocated(store, max);
    ReadyToFill(store, max);
    WhoGoesWhere(store, max);
    var placed := Walked(store, max).value;
    var (after, slots) := Allocate(store, max).value;
    forall j | 0 <= j < max && slots[j].Some?
      ensures var id := slots[j].value;
              && id < |store|
              && (id in Placing(store) ==> Placeable(store, id, max) && Spot(store, id, max) == j)
              && after[id] == store[id].(handle := Text(EncodeHandle(
                   if id in Placing(store) then store[id].handle.n else j + 1, store[id].version)))
    {
      assert EncodedAt(store, placed, after, slots, j);
      var id := slots[j].value;
      if id in Placing(store) {
        assert slots[Spot(store, id, max)] == Some(id);
        assert Spot(store, id, max) == j;
      }
      FreeMembers(placed, 0, j);
      if j !in FreeFrom(placed, 0) {
        assert placed[j] == slots[j] && placed[j].value in Placing(store);
      }
    }
  }

  // The secure core takes the number for position j with this version.
  predicate DecodesTo(encoded: int, j: nat, version: int) {
    encoded >= 0 && IsValidStatic(encoded) && IndexOf(encoded) == j && VersionOf(encoded) == version % 256
  }

  // With the table size the tool uses, the secure core decodes every entry to its position and
  // version, except those whose own handle was zero or below.
  lemma SecureCoreFindsEntry(store: seq<Service>, max: nat, j: nat)
    requires VisitedFirst(store) && store != [] && Allocate(store, max).Ok? && max <= STATIC_HANDLE_NUM_LIMIT
    requires j < |Allocate(store, max).value.1| && Allocate(store, max).value.1[j].Some?
    ensures var (after, slots) := Allocate(store, max).value;
            var id := slots[j].value;
            && id < |store| == |after|
            && after[id].handle.Text?
            && (id in Placing(store) ==> store[id].handle.Index?)
            && (DecodesTo(after[id].handle.encoded, j, store[id].version) <==>
                (id in Placing(store) ==> store[id].handle.n >= 1))
  {
    hide Allocate, Placing, EncodeHandle, IsValidStatic, IndexOf, VersionOf;
    HandlesGiven(store, max);
    var id := Allocate(store, max).value.1[j].value;
    var n := if id in Placing(store) then store[id].handle.n else j + 1;
    if n >= 0 {
      EncodedDecodes(n, store[id].version);
    } else {
      EncodedNegative(n, store[id].version);
    }
  }

  // No two entries carry the same number.
  lemma NumbersDiffer(store: seq<Service>, max: nat, j: nat, k: nat)
    requires VisitedFirst(store) && store != [] && Allocate(store, max).Ok? && max <= STATIC_HANDLE_NUM_LIMIT
    requires j < k < |Allocate(store, max).value.1|
    requires Allocate(store, max).value.1[j].Some? && Allocate(store, max).value.1[k].Some?
    ensures var (after, slots) := Allocate(store, max).value;
            && slots[j].value < |after| && slots[k].value < |after|
            && after[slots[j].value].handle != after[slots[k].value].handle
  {
    hide Allocate, Placing, EncodeHandle;
    HandlesGiven(store, max);
    var slots := Allocate(store, max).value.1;
    var p, q := slots[j].value, slots[k].value;
    EncodedDiffer(if p in Placing(store) then store[p].handle.n else j + 1,
                  if q in Placing(store) then store[q].handle.n else k + 1,
                  store[p].version, store[q].version);
  }

  // If no two services with an explicit handle stand next to each other, every such service with a
  // handle of one or more gets exactly the position it asks for.
  lemma ExplicitHonoured(store: seq<Service>, max: nat, id: Id)
    requires VisitedFirst(store) && Allocate(store, max).Ok?
    requires NoAdjacentExplicit(store, Ids(|store|))
    requires id < |store| && Explicit(store, id)
    ensures store[id].handle.Index?
    ensures store[id].handle.n >= 1 ==>
              var slots := Allocate(store, max).value.1;
              store[id].handle.n <= |slots| && slots[store[id].handle.n - 1] == Some(id)
  {
    hide Allocate, Visited, NoAdjacentExplicit, Explicit;
    AllVisitedExactly(store, Ids(|store|));
    assert Ids(|store|)[id] == id;
    WhoGoesWhere(store, max);
  }

  lemma {:induction false} SuccessorLeft(store: seq<Service>, list: seq<Id>, p: nat)
    requires Within(|store|, list) && Distinct(list) && p + 1 < |list| && list[p] in Visited(store, list)
    ensures list[p + 1] in LeftOver(store, list)
    decreases |list|
  {
    hide Explicit;
    if !Explicit(store, list[0]) {
      assert p > 0 && list[1..][p - 1] == list[p];
      SuccessorLeft(store, list[1..], p - 1);
    } else if p == 0 {
      assert LeftOver(store, list)[0] == list[1];
    } else {
      assert list[p] in Visited(store, list[2..]) && list[p] != list[1];
      assert list[2..][p - 2] == list[p];
      SuccessorLeft(store, list[2..], p - 2);
    }
  }

  // The service after a visited one is skipped, explicit or not: it gets one of the free positions,
  // in its turn among the services left.
  lemma SuccessorSkipped(store: seq<Service>, max: nat, j: Id) returns (m: nat)
    requires VisitedFirst(store) && Allocate(store, max).Ok?
    requires j in Placing(store) && j + 1 < |store|
    ensures Walked(store, max).Ok? && j + 1 !in Placing(store)
    ensures var free := FreeFrom(Walked(store, max).value, 0);
            var slots := Allocate(store, max).value.1;
            && m < |Remaining(store)| <= |free| && Remaining(store)[m] == j + 1
            && free[m] < |slots| && slots[free[m]] == Some(j + 1)
  {
    hide Allocate, Visited, LeftOver, Explicit, Walked;
    var ids := Ids(|store|);
    assert ids[j] == j && ids[j + 1] == j + 1;
    SuccessorLeft(store, ids, j);
    WhoGoesWhere(store, max);
    VisitedAndLeft(store, ids);
    DistinctParts(Placing(store), Remaining(store), |store|);
    m :| 0 <= m < |Remaining(store)| && Remaining(store)[m] == j + 1;
  }

  // An explicit handle of one or more is honoured exactly if the walk visits its service, or the
  // service's turn among those left comes at the very position it asks for.
  lemma HonouredExactly(store: seq<Service>, max: nat, id: Id)
    requires VisitedFirst(store) && Allocate(store, max).Ok?
    requires id < |store| && store[id].handle.Index? && store[id].handle.n >= 1
    ensures Walked(store, max).Ok? && |Remaining(store)| <= |FreeFrom(Walked(store, max).value, 0)|
    ensures var n := store[id].handle.n;
            var slots := Allocate(store, max).value.1;
            var free := FreeFrom(Walked(store, max).value, 0);
            (n <= |slots| && slots[n - 1] == Some(id)) <==>
            id in Placing(store) ||
            exists m :: 0 <= m < |Remaining(store)| && Remaining(store)[m] == id && free[m] == n - 1
  {
    hide Allocate, Placing, Remaining, Walked;
    OnlyPlacedOrKept(store, max);
    WhoGoesWhere(store, max);
    ReadyToFill(store, max);
    ConservedWhenFirst(store, max);
    var n := store[id].handle.n;
    var slots := Allocate(store, max).value.1;
    if n <= |slots| && slots[n - 1] == Some(id) && id !in Placing(store) {
      var m :| 0 <= m < |Remaining(store)| && Remaining(store)[m] == id;
      assert slots[FreeFrom(Walked(store, max).value, 0)[m]] == Some(id);
    }
  }

  // A visited handle of zero or below counts positions from the end of the table.
  lemma NonPositiveFromEnd(store: seq<Service>, max: nat, id: Id)
    requires VisitedFirst(store) && Allocate(store, max).Ok? && id in Placing(store)
    requires store[id].handle.Index? && store[id].handle.n <= 0
    ensures var slots := Allocate(store, max).value.1;
            var n := store[id].handle.n;
            0 < max + n <= |slots| == max && slots[max + n - 1] == Some(id)
  {
    hide Allocate, Placing;
    WhoGoesWhere(store, max);
  }

  // Why the walk fails: the first service, of those placed in order, that has no handle key, carries
  // text, names no position of the table from 1 - max to max, or names one already taken.
  lemma {:induction false} WalkFails(store: seq<Service>, ids: seq<Id>, slots: Slots) returns (i: nat)
    requires Within(|store|, ids) && PlaceAll(store, ids, slots).Err?
    requires forall id :: id in ids ==> Explicit(store, id)
    ensures i < |ids| && AllPlaceable(store, ids[..i], slots)
    ensures var h, max := store[ids[i]].handle, |slots|;
            match PlaceAll(store, ids, slots).error
            case NoHandleKey => h == Missing
            case NotANumber => h.Text?
            case OutOfRange => h.Index? && !(1 - max <= h.n <= max)
            case Duplicate =>
              h.Index? && 1 - max <= h.n <= max &&
              var spot := if h.n >= 1 then h.n - 1 else h.n - 1 + max;
              slots[spot] != None || exists j :: 0 <= j < i && Spot(store, ids[j], max) == spot
            case _ => false
  {
    if PlaceOne(store, ids[0], slots).Err? {
      i := 0;
      assert ids[0] in ids;
    } else {
      assert ids[0] in ids;
      PlacesOneExactly(store, ids[0], slots);
      var one := PlaceOne(store, ids[0], slots).value;
      var k := WalkFails(store, ids[1..], one);
      i := k + 1;
      assert ids[..i][1..] == ids[1..][..k] && ids[..i][0] == ids[0];
      AllPlaceableStep(store, ids[..i], slots);
      FailsLater(store, ids, slots, k);
    }
  }

  lemma FailsLater(store: seq<Service>, ids: seq<Id>, slots: Slots, k: nat)
    requires Within(|store|, ids) && ids != [] && k < |ids| - 1
    requires Placeable(store, ids[0], |slots|) && AllPlaceable(store, ids[..k + 1], slots)
    ensures var one := slots[Spot(store, ids[0], |slots|) := Some(ids[0])];
            forall spot :: 0 <= spot < |slots| ==>
              (one[spot] != None || (exists j :: 0 <= j < k && Placeable(store, ids[1..][j], |slots|)
                                       && Spot(store, ids[1..][j], |slots|) == spot)) ==>
              slots[spot] != None || exists j :: 0 <= j < k + 1 && Placeable(store, ids[j], |slots|)
                                       && Spot(store, ids[j], |slots|) == spot
  {
    var one := slots[Spot(store, ids[0], |slots|) := Some(ids[0])];
    forall spot | 0 <= spot < |slots| && slots[spot] == None && (one[spot] != None ||
        exists j :: 0 <= j < k && Placeable(store, ids[1..][j], |slots|) && Spot(store, ids[1..][j], |slots|) == spot)
      ensures exists j :: 0 <= j < k + 1 && Placeable(store, ids[j], |slots|) && Spot(store, ids[j], |slots|) == spot
    {
      if one[spot] != None {
        assert Spot(store, ids[0], |slots|) == spot;
      } else {
        var j :| 0 <= j < k && Placeable(store, ids[1..][j], |slots|) && Spot(store, ids[1..][j], |slots|) == spot;
        assert ids[1..][j] == ids[j + 1];
      }
    }
  }

  lemma {:induction false} FillFails(store: seq<Service>, list: seq<Id>, slots: Slots, i: nat)
    requires i <= |slots| && IdsIn(|store|, list, slots)
    ensures Fill(store, list, slots, i).Err? ==> Fill(store, list, slots, i).error == NotANumber
    decreases |slots| - i
  {
    hide EncodeHandle;
    if i < |slots| {
      var one := FillOne(store, list, slots, i);
      if one.Ok? {
        var (s1, l1, f1) := one.value;
        FillFails(s1, l1, f1, i + 1);
      }
    }
  }

  // Which error the allocation raises: too many services first, then the walk's error. An empty list
  // gives an empty table. If every visited service is the first of its kind there is no other error;
  // otherwise the second loop may find that it has encoded an entry before.
  lemma ErrorsExactly(store: seq<Service>, max: nat)
    ensures store == [] ==> Allocate(store, max) == Ok(([], []))
    ensures Allocate(store, max) == Err(TooMany) <==> store != [] && |store| > max
    ensures 0 < |store| <= max && Walked(store, max).Err? ==> Allocate(store, max) == Err(Walked(store, max).error)
    ensures 0 < |store| <= max && Walked(store, max).Ok? ==>
              Allocate(store, max).Ok? || (!VisitedFirst(store) && Allocate(store, max) == Err(NotANumber))
  {
    hide Walk, PlaceAll, Visited, LeftOver, LeftAfter, Explicit, Fill;
    if 0 < |store| <= max {
      WalkOfAny(store, max);
      if Walked(store, max).Ok? {
        WalkIds(store, Ids(|store|), 0, EmptySlots(max));
        FillFails(store, Unremoved(store), Walked(store, max).value, 0);
        if VisitedFirst(store) {
          SucceedsExactly(store, max);
          PlacesExactly(store, Placing(store), EmptySlots(max));
        }
      } else {
        var i := WalkFails(store, Placing(store), EmptySlots(max));
      }
    }
  }

  // A list on which conservation fails: of two equal dictionaries one stands in the table twice and
  // the other not at all.
  lemma EqualServicesLoseOne(store: seq<Service>)
    requires |store| == 4 && store[1] == store[3] && store[0] != store[1]
    requires store[0].handle == Index(1) && store[1].handle == Index(2) && store[2].handle == Auto
    ensures Allocate(store, 4).Ok?
    ensures Allocate(store, 4).value.1 == [Some(0), Some(3), Some(2), Some(3)]
  {
    var e := EmptySlots(4);
    var s1 := e[0 := Some(0)];
    var placed := s1[1 := Some(3)];
    assert Walk(store, Ids(4), 0, e) == Ok(([2, 3], placed)) by {
      assert Ids(4)[0] == 0 && Ids(4)[1..] == [1, 2, 3] && [1, 2, 3][1..] == [2, 3];
      assert RemoveFirst(store, Ids(4), 0) == [1, 2, 3];
      assert RemoveFirst(store, [1, 2, 3], 3) == [2, 3];
      assert Walk(store, [2, 3], 3, placed) == Ok(([2, 3], placed));
      assert Walk(store, [1, 2, 3], 2, s1) == Walk(store, [2, 3], 3, placed);
      assert Walk(store, [1, 2, 3], 1, s1) == Walk(store, [1, 2, 3], 2, s1);
    }
    EqualServicesFill(store, placed);
  }

  lemma EqualServicesFill(store: seq<Service>, placed: Slots)
    requires |store| == 4 && placed == [Some(0), Some(3), None, None]
    requires store[0].handle.Index? && store[3].handle.Index?
    ensures Fill(store, [2, 3], placed, 0).Ok?
    ensures Fill(store, [2, 3], placed, 0).value.1 == [Some(0), Some(3), Some(2), Some(3)]
  {
    hide EncodeHandle;
    var f0 := FillOne(store, [2, 3], placed, 0).value;
    var f1 := FillOne(f0.0, f0.1, f0.2, 1).value;
    var f2 := FillOne(f1.0, f1.1, f1.2, 2).value;
    var f3 := FillOne(f2.0, f2.1, f2.2, 3).value;
    assert f3.2 == [Some(0), Some(3), Some(2), Some(3)];
    assert Fill(f2.0, f2.1, f2.2, 3) == Fill(f3.0, f3.1, f3.2, 4);
    assert Fill(f0.0, f0.1, f0.2, 1) == Fill(f1.0, f1.1, f1.2, 2);
  }
}
