/**
 Where the handle allocation puts every service: the positions of the visited ones, the free
 positions the others get, and the table as a whole.
 */
module ServiceHandlesTable {
  import opened Wrappers
  import opened ServiceHandles
  import opened ServiceHandlesTheorems

  // Every entry stands where its own handle says.
  predicate AtOwnHandle(store: seq<Service>, slots: Slots) {
    forall j :: 0 <= j < |slots| && slots[j].Some? ==>
      && slots[j].value < |store|
      && store[slots[j].value].handle.Index?
      && j == Position(store[slots[j].value].handle.n, |slots|)
  }

  // A service the walk can place.
  predicate Placeable(store: seq<Service>, id: Id, max: nat)
    requires id < |store|
  {
    store[id].handle.Index? && 0 <= Position(store[id].handle.n, max) < max
  }

  function Spot(store: seq<Service>, id: Id, max: nat): (r: nat)
    requires id < |store| && Placeable(store, id, max)
    ensures r < max
  {
    Position(store[id].handle.n, max)
  }

  // The visited services name positions, free ones, and no two the same.
  predicate AllPlaceable(store: seq<Service>, ids: seq<Id>, slots: Slots)
    requires Within(|store|, ids)
  {
    && (forall i :: 0 <= i < |ids| ==> Placeable(store, ids[i], |slots|) && slots[Spot(store, ids[i], |slots|)] == None)
    && (forall i, j :: 0 <= i < j < |ids| ==> Spot(store, ids[i], |slots|) != Spot(store, ids[j], |slots|))
  }

  lemma AllPlaceableStep(store: seq<Service>, ids: seq<Id>, slots: Slots)
    requires Within(|store|, ids) && ids != []
    ensures AllPlaceable(store, ids, slots) <==>
            && Placeable(store, ids[0], |slots|)
            && slots[Spot(store, ids[0], |slots|)] == None
            && AllPlaceable(store, ids[1..], slots[Spot(store, ids[0], |slots|) := Some(ids[0])])
  {
    if Placeable(store, ids[0], |slots|) && slots[Spot(store, ids[0], |slots|)] == None {
      var spot := Spot(store, ids[0], |slots|);
      var placed := slots[spot := Some(ids[0])];
      if AllPlaceable(store, ids[1..], placed) {
        forall i | 0 <= i < |ids|
          ensures Placeable(store, ids[i], |slots|) && slots[Spot(store, ids[i], |slots|)] == None
          ensures i > 0 ==> Spot(store, ids[i], |slots|) != spot
        {
          if i > 0 {
            assert ids[1..][i - 1] == ids[i];
          }
        }
        forall i, j | 0 <= i < j < |ids|
          ensures Spot(store, ids[i], |slots|) != Spot(store, ids[j], |slots|)
        {
          if i > 0 {
            assert ids[1..][i - 1] == ids[i] && ids[1..][j - 1] == ids[j];
          }
        }
      }
    }
  }

  lemma PlacesOneExactly(store: seq<Service>, id: Id, slots: Slots)
    requires id < |store| && Explicit(store, id)
    ensures PlaceOne(store, id, slots).Ok? <==>
            Placeable(store, id, |slots|) && slots[Spot(store, id, |slots|)] == None
    ensures PlaceOne(store, id, slots).Ok? ==>
              PlaceOne(store, id, slots).value == slots[Spot(store, id, |slots|) := Some(id)]
  {
  }

  // The walk goes through exactly when the visited services name distinct positions of the table.
  lemma {:induction false} PlacesExactly(store: seq<Service>, ids: seq<Id>, slots: Slots)
    requires Within(|store|, ids) && forall id :: id in ids ==> Explicit(store, id)
    ensures PlaceAll(store, ids, slots).Ok? <==> AllPlaceable(store, ids, slots)
  {
    if ids != [] {
      AllPlaceableStep(store, ids, slots);
      assert ids[0] in ids;
      PlacesOneExactly(store, ids[0], slots);
      hide AllPlaceable, PlaceOne, Explicit, Placeable, Spot;
      if PlaceOne(store, ids[0], slots).Ok? {
        PlacesExactly(store, ids[1..], PlaceOne(store, ids[0], slots).value);
      }
    }
  }

  predicate Keeps(slots: Slots, later: Slots) {
    |later| == |slots| && forall j :: 0 <= j < |slots| && slots[j].Some? ==> later[j] == slots[j]
  }

  // The free positions from i on, in order.
  function FreeFrom(slots: Slots, i: nat): (r: seq<nat>)
    requires i <= |slots|
    ensures forall m :: 0 <= m < |r| ==> i <= r[m] < |slots| && slots[r[m]] == None
    decreases |slots| - i
  {
    if i == |slots| then []
    else (if slots[i] == None then [i] else []) + FreeFrom(slots, i + 1)
  }

  lemma {:induction false} OneFewerFree(slots: Slots, i: nat, j: nat, id: Id)
    requires i <= |slots| && j < |slots| && slots[j] == None
    ensures |FreeFrom(slots[j := Some(id)], i)| == |FreeFrom(slots, i)| - if i <= j then 1 else 0
    decreases |slots| - i
  {
    if i < |slots| {
      OneFewerFree(slots, i + 1, j, id);
    }
  }

  lemma {:induction false} PlacedAt(store: seq<Service>, ids: seq<Id>, slots: Slots)
    requires Within(|store|, ids) && AtOwnHandle(store, slots) && PlaceAll(store, ids, slots).Ok?
    requires forall id :: id in ids ==> Explicit(store, id)
    ensures var placed := PlaceAll(store, ids, slots).value;
            && Keeps(slots, placed) && AtOwnHandle(store, placed)
            && |FreeFrom(placed, 0)| == |FreeFrom(slots, 0)| - |ids|
            && (forall j :: 0 <= j < |placed| && placed[j].Some? ==> placed[j] == slots[j] || placed[j].value in ids)
            && (forall id :: id in ids ==>
                  Placeable(store, id, |slots|) && placed[Spot(store, id, |slots|)] == Some(id))
  {
    if ids != [] {
      assert ids[0] in ids;
      PlacesOneExactly(store, ids[0], slots);
      var spot := Spot(store, ids[0], |slots|);
      var one := slots[spot := Some(ids[0])];
      OneFewerFree(slots, 0, spot, ids[0]);
      PlacedAt(store, ids[1..], one);
      assert forall id :: id in ids ==> id == ids[0] || id in ids[1..];
    }
  }

  // ---------------------------------------------------------------- filling

  // The m-th service left over goes to the m-th free position.
  function Filled(slots: Slots, list: seq<Id>, i: nat): (r: Slots)
    requires i <= |slots|
    ensures |r| == |slots|
    decreases |slots| - i
  {
    if i == |slots| then slots
    else if slots[i] == None && list != [] then Filled(slots[i := Some(list[0])], list[1..], i + 1)
    else Filled(slots, list, i + 1)
  }

  lemma {:induction false} FreeUntouched(slots: Slots, i: nat, j: nat, id: Id)
    requires j < i <= |slots|
    ensures FreeFrom(slots[j := Some(id)], i) == FreeFrom(slots, i)
    decreases |slots| - i
  {
    if i < |slots| {
      FreeUntouched(slots, i + 1, j, id);
    }
  }

  predicate IsFilling(slots: Slots, list: seq<Id>, free: seq<nat>, r: Slots)
    requires forall m :: 0 <= m < |free| ==> free[m] < |slots|
  {
    && |r| == |slots|
    && (forall m :: 0 <= m < |free| ==> r[free[m]] == if m < |list| then Some(list[m]) else slots[free[m]])
    && (forall j :: 0 <= j < |slots| && j !in free ==> r[j] == slots[j])
  }

  lemma FillingPop(slots: Slots, list: seq<Id>, i: nat, later: seq<nat>, r: Slots)
    requires i < |slots| && slots[i] == None && list != []
    requires forall m :: 0 <= m < |later| ==> i < later[m] < |slots|
    requires IsFilling(slots[i := Some(list[0])], list[1..], later, r)
    ensures IsFilling(slots, list, [i] + later, r)
  {
    forall m | 0 <= m < |later| + 1
      ensures r[([i] + later)[m]] == if m < |list| then Some(list[m]) else slots[([i] + later)[m]]
    {
      if m == 0 {
        assert i !in later;
      } else {
        assert ([i] + later)[m] == later[m - 1];
      }
    }
  }

  lemma FillingPass(slots: Slots, list: seq<Id>, i: nat, later: seq<nat>, r: Slots)
    requires i < |slots| && (slots[i] == None ==> list == [])
    requires forall m :: 0 <= m < |later| ==> i < later[m] < |slots|
    requires IsFilling(slots, list, later, r)
    ensures IsFilling(slots, list, (if slots[i] == None then [i] else []) + later, r)
  {
    var free := (if slots[i] == None then [i] else []) + later;
    assert i !in later;
    assert forall m :: 0 <= m < |free| ==> free[m] == i || free[m] in later;
    assert forall j :: j in later ==> j in free;
    if slots[i] != None {
      assert free == later;
    }
  }

  // The filling of the whole rest of the table from position i.
  predicate FillsInOrder(slots: Slots, list: seq<Id>, i: nat)
    requires i <= |slots|
  {
    IsFilling(slots, list, FreeFrom(slots, i), Filled(slots, list, i))
  }

  lemma PopInOrder(slots: Slots, list: seq<Id>, i: nat)
    requires i < |slots| && slots[i] == None && list != []
    requires FillsInOrder(slots[i := Some(list[0])], list[1..], i + 1)
    ensures FillsInOrder(slots, list, i)
  {
    hide IsFilling;
    FreeUntouched(slots, i + 1, i, list[0]);
    FillingPop(slots, list, i, FreeFrom(slots, i + 1), Filled(slots, list, i));
  }

  lemma PassInOrder(slots: Slots, list: seq<Id>, i: nat)
    requires i < |slots| && (slots[i] == None ==> list == []) && FillsInOrder(slots, list, i + 1)
    ensures FillsInOrder(slots, list, i)
  {
    hide IsFilling;
    FillingPass(slots, list, i, FreeFrom(slots, i + 1), Filled(slots, list, i));
  }

  lemma {:induction false} SmallestFreeInOrder(slots: Slots, list: seq<Id>, i: nat)
    requires i <= |slots|
    ensures FillsInOrder(slots, list, i)
    decreases |slots| - i
  {
    if i == |slots| {
      assert FreeFrom(slots, i) == [];
    } else {
      hide FillsInOrder;
      if slots[i] == None && list != [] {
        SmallestFreeInOrder(slots[i := Some(list[0])], list[1..], i + 1);
        PopInOrder(slots, list, i);
      } else {
        SmallestFreeInOrder(slots, list, i + 1);
        PassInOrder(slots, list, i);
      }
    }
  }

  // ---------------------------------------------------------------- the dictionaries after filling

  predicate FreshIds(slots: Slots, list: seq<Id>) {
    forall j :: 0 <= j < |slots| && slots[j].Some? ==> slots[j].value !in list
  }

  predicate NoRepeat(slots: Slots) {
    forall j, k :: 0 <= j < k < |slots| && slots[j].Some? ==> slots[j] != slots[k]
  }

  // The handle an entry has when the second loop encodes it.
  function HandleAt(store: seq<Service>, slots: Slots, k: nat): Handle
    requires k < |slots| && (slots[k].Some? ==> slots[k].value < |store|)
  {
    match slots[k]
    case None => Index(k + 1)
    case Some(id) => store[id].handle
  }

  // The dictionary of position k once the loop has passed it.
  predicate EncodedAt(store: seq<Service>, slots: Slots, after: seq<Service>, filled: Slots, k: nat)
    requires k < |slots| == |filled|
    requires slots[k].Some? ==> slots[k].value < |store|
  {
    filled[k].Some? ==>
      var id := filled[k].value;
      && id < |store| == |after|
      && HandleAt(store, slots, k).Index?
      && after[id] == store[id].(handle := Text(EncodeHandle(HandleAt(store, slots, k).n, store[id].version)))
  }

  // What filling from position i needs: the entries to come carry numbers, nothing stands twice.
  predicate Ready(store: seq<Service>, list: seq<Id>, slots: Slots, i: nat)
    requires i <= |slots|
  {
    && IdsIn(|store|, list, slots) && Distinct(list) && FreshIds(slots, list) && NoRepeat(slots)
    && forall k :: i <= k < |slots| && slots[k].Some? ==> store[slots[k].value].handle.Index?
  }

  lemma FillOneReady(store: seq<Service>, list: seq<Id>, slots: Slots, i: nat)
    requires i < |slots| && Ready(store, list, slots, i)
    ensures FillOne(store, list, slots, i).Ok?
    ensures var (after, rest, filled) := FillOne(store, list, slots, i).value;
            && |filled| == |slots| && |after| == |store| && Ready(after, rest, filled, i + 1)
            && Filled(slots, list, i) == Filled(filled, rest, i + 1)
            && EncodedAt(store, slots, after, filled, i)
            && (forall k :: 0 <= k < |slots| && k != i ==> filled[k] == slots[k])
            && (forall id :: 0 <= id < |store| && filled[i] != Some(id) ==> after[id] == store[id])
  {
  }

  // Filling from position i.
  predicate FillsAndEncodes(store: seq<Service>, slots: Slots, i: nat, after: seq<Service>, filled: Slots)
    requires i <= |slots|
    requires forall k :: 0 <= k < |slots| && slots[k].Some? ==> slots[k].value < |store|
  {
    && |after| == |store| && |filled| == |slots| && NoRepeat(filled)
    && (forall k :: 0 <= k < i ==> filled[k] == slots[k])
    && (forall k :: i <= k < |slots| ==> EncodedAt(store, slots, after, filled, k))
    && (forall id :: 0 <= id < |store| && (forall k :: i <= k < |filled| ==> filled[k] != Some(id)) ==>
          after[id] == store[id])
  }

  lemma FillStep(store: seq<Service>, list: seq<Id>, slots: Slots, i: nat, after: seq<Service>, filled: Slots)
    requires i < |slots| && Ready(store, list, slots, i)
    requires FillOne(store, list, slots, i).Ok?
    requires var (s1, l1, f1) := FillOne(store, list, slots, i).value;
             && |f1| == |slots| && Ready(s1, l1, f1, i + 1) && FillsAndEncodes(s1, f1, i + 1, after, filled)
    ensures FillsAndEncodes(store, slots, i, after, filled)
  {
    FillOneReady(store, list, slots, i);
    var (s1, l1, f1) := FillOne(store, list, slots, i).value;
    hide FillOne, Ready;
    forall k | i <= k < |slots|
      ensures EncodedAt(store, slots, after, filled, k)
    {
      assert filled[i] == f1[i];
      if k > i {
        assert EncodedAt(s1, f1, after, filled, k);
        assert NoRepeat(f1) by {
          assert Ready(s1, l1, f1, i + 1);
        }
      }
    }
  }

  lemma {:induction false} FillWorks(store: seq<Service>, list: seq<Id>, slots: Slots, i: nat)
    requires i <= |slots| && Ready(store, list, slots, i)
    ensures Fill(store, list, slots, i).Ok?
    ensures Fill(store, list, slots, i).value.1 == Filled(slots, list, i)
    ensures FillsAndEncodes(store, slots, i, Fill(store, list, slots, i).value.0, Filled(slots, list, i))
    decreases |slots| - i
  {
    if i < |slots| {
      FillOneReady(store, list, slots, i);
      hide Ready, FillOne, FillsAndEncodes, Filled;
      var (s1, l1, f1) := FillOne(store, list, slots, i).value;
      FillWorks(s1, l1, f1, i + 1);
      FillStep(store, list, slots, i, Fill(s1, l1, f1, i + 1).value.0, Filled(f1, l1, i + 1));
    }
  }
}
