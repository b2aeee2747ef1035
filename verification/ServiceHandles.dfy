/**
 Allocation of stateless service handles by the manifest tool: process_stateless_services collects
 the services, places those with an explicit handle while it removes them from the list it walks,
 gives the rest the free handles, and packs index, version and indicator bit into one number.
 */
module ServiceHandles {
  import opened Wrappers

  datatype Error = NoConnectionKey | TooMany | NoHandleKey | NotANumber | OutOfRange | Duplicate
  datatype Result<+T> = Ok(value: T) | Err(error: Error)

  // The value under 'stateless_handle'. Text is any string but "auto", which is what this function
  // itself leaves behind: the number it encoded.
  datatype Handle = Auto | Index(n: int) | Text(encoded: int) | Missing

  // A service dictionary; `content` stands for its other entries. Two dictionaries are equal when
  // their entries are.
  datatype Service = Service(content: int, version: int, handle: Handle)

  datatype Declared = Declared(connectionBased: Option<bool>, service: Service)
  datatype Partition = Partition(frameworkVersion: real, ipc: bool, services: seq<Declared>)

  // A dictionary object is known by its place in the collected list.
  type Id = nat
  type Slots = seq<Option<Id>>

  // ---------------------------------------------------------------- collecting

  predicate Eligible(p: Partition) {
    p.frameworkVersion >= 1.1 && p.ipc
  }

  function StatelessOf(services: seq<Declared>): Result<seq<Service>> {
    if services == [] then Ok([])
    else if services[0].connectionBased == None then Err(NoConnectionKey)
    else match StatelessOf(services[1..])
      case Err(e) => Err(e)
      case Ok(rest) => Ok((if services[0].connectionBased == Some(false) then [services[0].service] else []) + rest)
  }

  function Collected(partitions: seq<Partition>): Result<seq<Service>> {
    if partitions == [] then Ok([])
    else
      match (if Eligible(partitions[0]) then StatelessOf(partitions[0].services) else Ok([]))
      case Err(e) => Err(e)
      case Ok(first) =>
        match Collected(partitions[1..])
        case Err(e) => Err(e)
        case Ok(rest) => Ok(first + rest)
  }

  // ---------------------------------------------------------------- the walk that removes

  // list.remove: drops the first entry that is equal to the service.
  function RemoveFirst(store: seq<Service>, list: seq<Id>, id: Id): seq<Id>
    requires id < |store| && forall j :: 0 <= j < |list| ==> list[j] < |store|
  {
    if list == [] then []
    else if store[list[0]] == store[id] then list[1..]
    else [list[0]] + RemoveFirst(store, list[1..], id)
  }

  lemma {:induction false} RemoveFirstShorter(store: seq<Service>, list: seq<Id>, id: Id)
    requires id in list && forall j :: 0 <= j < |list| ==> list[j] < |store|
    ensures |RemoveFirst(store, list, id)| == |list| - 1
    ensures forall j :: 0 <= j < |list| - 1 ==> RemoveFirst(store, list, id)[j] < |store|
  {
    if store[list[0]] != store[id] {
      RemoveFirstShorter(store, list[1..], id);
    }
  }

  // The list index a handle names; a negative index counts from the end.
  function Position(n: int, max: nat): int {
    if n - 1 >= 0 then n - 1 else n - 1 + max
  }

  // One service of the walk that is not "auto".
  function PlaceOne(store: seq<Service>, id: Id, slots: Slots): Result<Slots>
    requires id < |store|
  {
    match store[id].handle
    case Auto => Ok(slots)
    case Missing => Err(NoHandleKey)
    case Text(_) => Err(NotANumber)
    case Index(n) =>
      var j := Position(n, |slots|);
      if !(0 <= j < |slots|) then Err(OutOfRange)
      else if slots[j] != None then Err(Duplicate)
      else Ok(slots[j := Some(id)])
  }

  // The walk over the list by index, from `next`, while it shrinks.
  function Walk(store: seq<Service>, list: seq<Id>, next: nat, slots: Slots): Result<(seq<Id>, Slots)>
    requires forall j :: 0 <= j < |list| ==> list[j] < |store|
    decreases |list| - next
  {
    if next >= |list| then Ok((list, slots))
    else
      var id := list[next];
      if store[id].handle == Auto then Walk(store, list, next + 1, slots)
      else
        match PlaceOne(store, id, slots)
        case Err(e) => Err(e)
        case Ok(placed) =>
          RemoveFirstShorter(store, list, id);
          Walk(store, RemoveFirst(store, list, id), next + 1, placed)
  }

  // ---------------------------------------------------------------- filling and encoding

  // Python's `a | b` for any a and a non-negative b.
  function Or(a: int, b: nat): int
    decreases b
  {
    if b == 0 then a else 2 * Or(a / 2, b / 2) + (if a % 2 == 1 || b % 2 == 1 then 1 else 0)
  }

  const INDICATOR: nat := 0x4000_0000

  function EncodeHandle(n: int, version: int): int {
    Or(Or(n, INDICATOR), (version % 256) * 256)
  }

  // One position of the second loop.
  function FillOne(store: seq<Service>, list: seq<Id>, slots: Slots, i: nat)
    : Result<(seq<Service>, seq<Id>, Slots)>
    requires i < |slots|
    requires forall j :: 0 <= j < |list| ==> list[j] < |store|
    requires slots[i].Some? ==> slots[i].value < |store|
  {
    var pop := slots[i] == None && |list| > 0;
    var given := if pop then store[list[0] := store[list[0]].(handle := Index(i + 1))] else store;
    var filled := if pop then slots[i := Some(list[0])] else slots;
    var rest := if pop then list[1..] else list;
    match filled[i]
    case None => Ok((given, rest, filled))
    case Some(id) =>
      if !given[id].handle.Index? then Err(NotANumber)
      else
        var v := EncodeHandle(given[id].handle.n, given[id].version);
        Ok((given[id := given[id].(handle := Text(v))], rest, filled))
  }

  predicate IdsIn(n: nat, list: seq<Id>, slots: Slots) {
    && (forall j :: 0 <= j < |list| ==> list[j] < n)
    && (forall i :: 0 <= i < |slots| && slots[i].Some? ==> slots[i].value < n)
  }

  function Fill(store: seq<Service>, list: seq<Id>, slots: Slots, i: nat): Result<(seq<Service>, Slots)>
    requires i <= |slots| && IdsIn(|store|, list, slots)
    decreases |slots| - i
  {
    if i == |slots| then Ok((store, slots))
    else
      match FillOne(store, list, slots, i)
      case Err(e) => Err(e)
      case Ok((store', list', slots')) => Fill(store', list', slots', i + 1)
  }

  function Ids(n: nat): (r: seq<Id>)
    ensures |r| == n && forall i :: 0 <= i < n ==> r[i] == i
  {
    seq(n, i => i)
  }

  function EmptySlots(max: nat): (r: Slots)
    ensures |r| == max && forall i :: 0 <= i < max ==> r[i] == None
  {
    seq(max, i => None)
  }

  lemma {:induction false} WalkIds(store: seq<Service>, list: seq<Id>, next: nat, slots: Slots)
    requires IdsIn(|store|, list, slots)
    ensures Walk(store, list, next, slots).Ok? ==>
              var (left, placed) := Walk(store, list, next, slots).value;
              IdsIn(|store|, left, placed) && |placed| == |slots|
    decreases |list| - next
  {
    if next < |list| {
      var id := list[next];
      if store[id].handle == Auto {
        WalkIds(store, list, next + 1, slots);
      } else if PlaceOne(store, id, slots).Ok? {
        RemoveFirstShorter(store, list, id);
        WalkIds(store, RemoveFirst(store, list, id), next + 1, PlaceOne(store, id, slots).value);
      }
    }
  }

  // Everything after the services are collected: the dictionaries as it leaves them, and the table.
  function Allocate(store: seq<Service>, max: nat): Result<(seq<Service>, Slots)> {
    if |store| == 0 then Ok(([], []))
    else if |store| > max then Err(TooMany)
    else
      match Walk(store, Ids(|store|), 0, EmptySlots(max))
      case Err(e) => Err(e)
      case Ok((left, placed)) =>
        WalkIds(store, Ids(|store|), 0, EmptySlots(max));
        Fill(store, left, placed, 0)
  }

  // ---------------------------------------------------------------- the function as written

  function After(before: seq<Service>, r: Result<seq<Service>>): Result<seq<Service>> {
    match r
    case Err(e) => Err(e)
    case Ok(more) => Ok(before + more)
  }

  lemma AfterTwice(a: seq<Service>, b: seq<Service>, r: Result<seq<Service>>)
    ensures After(a, After(b, r)) == After(a + b, r)
    ensures After([], r) == r
    ensures After(a, Ok([])) == Ok(a)
  {
    if r.Ok? {
      assert a + (b + r.value) == (a + b) + r.value;
      assert [] + r.value == r.value;
    }
    assert a + [] == a;
  }

  method CollectServices(partitions: seq<Partition>) returns (r: Result<seq<Service>>)
    ensures r == Collected(partitions)
  {
    var services: seq<Service> := [];
    var i := 0;
    assert partitions[0..] == partitions;
    AfterTwice([], [], Collected(partitions));
    while i < |partitions|
      invariant 0 <= i <= |partitions|
      invariant Collected(partitions) == After(services, Collected(partitions[i..]))
    {
      var p := partitions[i];
      ghost var before := services;
      assert partitions[i..][0] == p && partitions[i..][1..] == partitions[i + 1..];
      if p.frameworkVersion >= 1.1 && p.ipc {
        var j := 0;
        assert p.services[0..] == p.services;
        while j < |p.services|
          invariant 0 <= j <= |p.services|
          invariant After(before, StatelessOf(p.services)) == After(services, StatelessOf(p.services[j..]))
        {
          var d := p.services[j];
          assert p.services[j..][0] == d && p.services[j..][1..] == p.services[j + 1..];
          AfterTwice(services, if d.connectionBased == Some(false) then [d.service] else [],
                     StatelessOf(p.services[j + 1..]));
          if d.connectionBased == None {
            return Err(NoConnectionKey);
          }
          if d.connectionBased == Some(false) {
            services := services + [d.service];
          }
          j := j + 1;
        }
        AfterTwice(services, [], Ok([]));
        assert After(before, StatelessOf(p.services)) == Ok(services);
        AfterTwice(before, StatelessOf(p.services).value, Collected(partitions[i + 1..]));
      } else {
        AfterTwice(before, [], Collected(partitions[i + 1..]));
      }
      i := i + 1;
    }
    AfterTwice(services, [], Ok([]));
    return Ok(services);
  }

  // The first loop: walks the list by index while it shrinks, and places what is not "auto".
  method PlaceExplicit(store: array<Service>, max: nat) returns (r: Result<(seq<Id>, Slots)>)
    ensures r == Walk(store[..], Ids(store.Length), 0, EmptySlots(max))
  {
    hide RemoveFirst;
    ghost var before := store[..];
    var list: seq<Id> := Ids(store.Length);
    var slots: Slots := EmptySlots(max);
    var next := 0;
    while next < |list|
      invariant IdsIn(|before|, list, slots) && |slots| == max
      invariant Walk(before, Ids(|before|), 0, EmptySlots(max)) == Walk(before, list, next, slots)
      decreases |list| - next
    {
      var id := list[next];
      next := next + 1;
      if store[id].handle == Auto {
        continue;
      }
      if store[id].handle == Missing {
        return Err(NoHandleKey);
      }
      if store[id].handle.Text? {
        return Err(NotANumber);
      }
      var j := Position(store[id].handle.n, max);
      if !(0 <= j < max) {
        return Err(OutOfRange);
      }
      if slots[j] != None {
        return Err(Duplicate);
      }
      slots := slots[j := Some(id)];
      RemoveFirstShorter(before, list, id);
      list := RemoveFirst(store[..], list, id);
    }
    return Ok((list, slots));
  }

  // The second loop: fills the free positions and encodes every entry, the dictionaries in place.
  method FillAndEncode(store: array<Service>, left: seq<Id>, placed: Slots) returns (r: Result<Slots>)
    requires IdsIn(store.Length, left, placed)
    modifies store
    ensures match Fill(old(store[..]), left, placed, 0)
            case Ok((after, slots)) => r == Ok(slots) && store[..] == after
            case Err(e) => r == Err(e)
  {
    hide EncodeHandle;
    var list: seq<Id>, slots: Slots := left, placed;
    ghost var filling := Fill(store[..], list, slots, 0);
    var i := 0;
    while i < |slots|
      invariant 0 <= i <= |slots|
      invariant IdsIn(store.Length, list, slots)
      invariant filling == Fill(store[..], list, slots, i)
      decreases |slots| - i
    {
      ghost var step := FillOne(store[..], list, slots, i);
      if slots[i] == None && |list| > 0 {
        var id := list[0];
        list := list[1..];
        store[id] := store[id].(handle := Index(i + 1));
        slots := slots[i := Some(id)];
      }
      if slots[i] != None {
        var id := slots[i].value;
        if !store[id].handle.Index? {
          return Err(NotANumber);
        }
        store[id] := store[id].(handle := Text(EncodeHandle(store[id].handle.n, store[id].version)));
      }
      assert step == Ok((store[..], list, slots));
      i := i + 1;
    }
    return Ok(slots);
  }

  // The dictionaries are updated in place; the answer is the table of their identities.
  method AllocateHandles(store: array<Service>, max: nat) returns (r: Result<Slots>)
    modifies store
    ensures match Allocate(old(store[..]), max)
            case Ok((after, slots)) => r == Ok(slots) && store[..] == after
            case Err(e) => r == Err(e)
  {
    hide Walk, Fill;
    if store.Length == 0 {
      return Ok([]);
    }
    if store.Length > max {
      return Err(TooMany);
    }
    var walk := PlaceExplicit(store, max);
    if walk.Err? {
      return Err(walk.error);
    }
    var (left, placed) := walk.value;
    WalkIds(store[..], Ids(store.Length), 0, EmptySlots(max));
    r := FillAndEncode(store, left, placed);
  }
}
