/**
 What the handle allocation guarantees: which services the shrinking walk visits, where every
 service ends up, and what the secure core decodes from the packed handles.
 */
module ServiceHandlesTheorems {
  import opened Powers
  import opened Wrappers
  import opened ServiceHandles

  // ---------------------------------------------------------------- what is collected

  predicate Lists(p: Partition, d: Declared) {
    p.frameworkVersion >= 1.1 && p.ipc && d in p.services
  }

  predicate SomeLists(partitions: seq<Partition>, d: Declared) {
    exists i :: 0 <= i < |partitions| && Lists(partitions[i], d)
  }

  lemma {:induction false} StatelessExactly(services: seq<Declared>)
    ensures StatelessOf(services).Ok? <==> forall d :: d in services ==> d.connectionBased != None
    ensures StatelessOf(services).Ok? ==>
              forall s :: s in StatelessOf(services).value <==> Declared(Some(false), s) in services
  {
    if services != [] {
      StatelessExactly(services[1..]);
      assert forall d :: d in services <==> d == services[0] || d in services[1..];
    }
  }

  // Collecting goes through exactly when every service of an IPC partition of version 1.1 or later
  // says whether it is connection based, and collects exactly the ones that say they are not.
  lemma {:induction false} CollectedExactly(partitions: seq<Partition>)
    ensures Collected(partitions).Ok? <==>
            forall d :: SomeLists(partitions, d) ==> d.connectionBased != None
    ensures Collected(partitions).Ok? ==>
              forall s :: s in Collected(partitions).value <==> SomeLists(partitions, Declared(Some(false), s))
  {
    if partitions != [] {
      var p := partitions[0];
      CollectedExactly(partitions[1..]);
      StatelessExactly(p.services);
      forall d
        ensures SomeLists(partitions, d) <==> Lists(p, d) || SomeLists(partitions[1..], d)
      {
        if SomeLists(partitions[1..], d) {
          var i :| 0 <= i < |partitions[1..]| && Lists(partitions[1..][i], d);
          assert partitions[i + 1] == partitions[1..][i];
        }
        if SomeLists(partitions, d) && !Lists(p, d) {
          var i :| 0 <= i < |partitions| && Lists(partitions[i], d);
          assert partitions[1..][i - 1] == partitions[i];
        }
      }
    }
  }

  // Service j of partition i is to be collected.
  predicate Wanted(partitions: seq<Partition>, i: int, j: int) {
    && 0 <= i < |partitions| && partitions[i].frameworkVersion >= 1.1 && partitions[i].ipc
    && 0 <= j < |partitions[i].services| && partitions[i].services[j].connectionBased == Some(false)
  }

  predicate Before(a: (int, int), b: (int, int)) {
    a.0 < b.0 || (a.0 == b.0 && a.1 < b.1)
  }

  // The result lists, in order, the services at the increasing positions js.
  ghost predicate At(services: seq<Declared>, js: seq<int>, result: seq<Service>) {
    && |js| == |result| && (forall k, l :: 0 <= k < l < |js| ==> js[k] < js[l])
    && (forall k :: 0 <= k < |js| ==>
          && 0 <= js[k] < |services| && services[js[k]].connectionBased == Some(false)
          && result[k] == services[js[k]].service)
    && (forall j :: 0 <= j < |services| && services[j].connectionBased == Some(false) ==> j in js)
  }

  function Up(js: seq<int>): (r: seq<int>)
    ensures |r| == |js| && forall k :: 0 <= k < |js| ==> r[k] == js[k] + 1
  {
    seq(|js|, k requires 0 <= k < |js| => js[k] + 1)
  }

  // The same services behind one more that is not collected.
  lemma AtBehind(services: seq<Declared>, js: seq<int>, result: seq<Service>)
    requires services != [] && services[0].connectionBased != Some(false) && At(services[1..], js, result)
    ensures At(services, Up(js), result)
  {
    forall j | 0 <= j < |services| && services[j].connectionBased == Some(false)
      ensures j in Up(js)
    {
      assert services[1..][j - 1] == services[j];
      var k :| 0 <= k < |js| && js[k] == j - 1;
      assert Up(js)[k] == j;
    }
    assert forall k :: 0 <= k < |js| ==> services[Up(js)[k]] == services[1..][js[k]];
  }

  // One more service is collected in front of a list that starts behind it.
  lemma AtFront(services: seq<Declared>, js: seq<int>, result: seq<Service>)
    requires services != [] && services[0].connectionBased == Some(false) && At(services[1..], js, result)
    ensures At(services, [0] + Up(js), [services[0].service] + result)
  {
    FrontIncreases(js, |services| - 1);
    FrontHasAll(services, js);
    FrontMatches(services, js, result);
  }

  lemma FrontMatches(services: seq<Declared>, js: seq<int>, result: seq<Service>)
    requires services != [] && services[0].connectionBased == Some(false)
    requires |js| == |result| && forall k :: 0 <= k < |js| ==>
               && 0 <= js[k] < |services[1..]| && services[1..][js[k]].connectionBased == Some(false)
               && result[k] == services[1..][js[k]].service
    ensures var all, longer := [0] + Up(js), [services[0].service] + result;
            |all| == |longer| && forall k :: 0 <= k < |all| ==>
              && 0 <= all[k] < |services| && services[all[k]].connectionBased == Some(false)
              && longer[k] == services[all[k]].service
  {
    var all, longer := [0] + Up(js), [services[0].service] + result;
    forall k | 0 <= k < |all|
      ensures 0 <= all[k] < |services| && services[all[k]].connectionBased == Some(false)
      ensures longer[k] == services[all[k]].service
    {
      if k > 0 {
        assert longer[k] == result[k - 1] && services[js[k - 1] + 1] == services[1..][js[k - 1]];
      }
    }
  }

  lemma FrontIncreases(js: seq<int>, n: int)
    requires forall k, l :: 0 <= k < l < |js| ==> js[k] < js[l]
    requires forall k :: 0 <= k < |js| ==> 0 <= js[k] < n
    ensures var all := [0] + Up(js); forall k, l :: 0 <= k < l < |all| ==> all[k] < all[l]
  {
    var all := [0] + Up(js);
    assert forall k :: 0 < k < |all| ==> all[k] == js[k - 1] + 1;
  }

  lemma FrontHasAll(services: seq<Declared>, js: seq<int>)
    requires services != []
    requires forall j :: 0 <= j < |services[1..]| && services[1..][j].connectionBased == Some(false) ==> j in js
    ensures forall j :: 0 <= j < |services| && services[j].connectionBased == Some(false) ==> j in [0] + Up(js)
  {
    var all := [0] + Up(js);
    forall j | 0 <= j < |services| && services[j].connectionBased == Some(false)
      ensures j in all
    {
      if j > 0 {
        assert services[1..][j - 1] == services[j];
        var k :| 0 <= k < |js| && js[k] == j - 1;
        assert all[k + 1] == j;
      } else {
        assert all[0] == 0;
      }
    }
  }

  lemma {:induction false} StatelessAt(services: seq<Declared>) returns (js: seq<int>)
    requires StatelessOf(services).Ok?
    ensures At(services, js, StatelessOf(services).value)
  {
    if services == [] {
      js := [];
    } else {
      var later := StatelessAt(services[1..]);
      var rest := StatelessOf(services[1..]).value;
      hide At;
      if services[0].connectionBased == Some(false) {
        AtFront(services, later, rest);
        js := [0] + Up(later);
      } else {
        AtBehind(services, later, rest);
        js := Up(later);
        assert [] + rest == rest;
      }
    }
  }

  ghost predicate AtPairs(partitions: seq<Partition>, at: seq<(int, int)>, result: seq<Service>) {
    && |at| == |result| && (forall k, l :: 0 <= k < l < |at| ==> Before(at[k], at[l]))
    && (forall k :: 0 <= k < |at| ==>
          && Wanted(partitions, at[k].0, at[k].1)
          && result[k] == partitions[at[k].0].services[at[k].1].service)
    && (forall i, j :: Wanted(partitions, i, j) ==> (i, j) in at)
  }

  function UpPairs(at: seq<(int, int)>): (r: seq<(int, int)>)
    ensures |r| == |at| && forall k :: 0 <= k < |at| ==> r[k] == (at[k].0 + 1, at[k].1)
  {
    seq(|at|, k requires 0 <= k < |at| => (at[k].0 + 1, at[k].1))
  }

  function OfFirst(js: seq<int>): (r: seq<(int, int)>)
    ensures |r| == |js| && forall k :: 0 <= k < |js| ==> r[k] == (0, js[k])
  {
    seq(|js|, k requires 0 <= k < |js| => (0, js[k]))
  }

  // The same services behind one more partition that is not eligible.
  lemma PairsBehind(partitions: seq<Partition>, at: seq<(int, int)>, result: seq<Service>)
    requires partitions != [] && AtPairs(partitions[1..], at, result)
    requires !(partitions[0].frameworkVersion >= 1.1 && partitions[0].ipc)
    ensures AtPairs(partitions, UpPairs(at), result)
  {
    forall i, j | Wanted(partitions, i, j)
      ensures (i, j) in UpPairs(at)
    {
      PairBehind(partitions, at, result, i, j);
    }
    assert forall k :: 0 <= k < |at| ==> partitions[at[k].0 + 1] == partitions[1..][at[k].0];
  }

  lemma PairBehind(partitions: seq<Partition>, at: seq<(int, int)>, result: seq<Service>, i: int, j: int)
    requires partitions != [] && AtPairs(partitions[1..], at, result) && i > 0 && Wanted(partitions, i, j)
    ensures (i, j) in UpPairs(at)
  {
    assert partitions[1..][i - 1] == partitions[i] && Wanted(partitions[1..], i - 1, j);
    var k :| 0 <= k < |at| && at[k] == (i - 1, j);
    assert UpPairs(at)[k] == (i, j);
  }

  lemma PairsFront(partitions: seq<Partition>, js: seq<int>, first: seq<Service>, at: seq<(int, int)>, rest: seq<Service>)
    requires partitions != [] && AtPairs(partitions[1..], at, rest)
    requires partitions[0].frameworkVersion >= 1.1 && partitions[0].ipc && At(partitions[0].services, js, first)
    ensures AtPairs(partitions, OfFirst(js) + UpPairs(at), first + rest)
  {
    var all, result := OfFirst(js) + UpPairs(at), first + rest;
    forall i, j | Wanted(partitions, i, j)
      ensures (i, j) in all
    {
      if i == 0 {
        var k :| 0 <= k < |js| && js[k] == j;
        assert all[k] == (i, j);
      } else {
        PairBehind(partitions, at, rest, i, j);
      }
    }
    forall k | 0 <= k < |all|
      ensures Wanted(partitions, all[k].0, all[k].1)
      ensures result[k] == partitions[all[k].0].services[all[k].1].service
    {
      if k < |js| {
        assert all[k] == (0, js[k]) && result[k] == first[k];
      } else {
        var n := k - |js|;
        assert all[k] == (at[n].0 + 1, at[n].1) && result[k] == rest[n];
        assert partitions[all[k].0] == partitions[1..][at[n].0];
      }
    }
    assert forall k, l :: 0 <= k < l < |all| ==> Before(all[k], all[l]) by {
      FrontInOrder(partitions[1..], js, at, rest);
    }
  }

  lemma FrontInOrder(partitions: seq<Partition>, js: seq<int>, at: seq<(int, int)>, rest: seq<Service>)
    requires AtPairs(partitions, at, rest) && forall k, l :: 0 <= k < l < |js| ==> js[k] < js[l]
    ensures var all := OfFirst(js) + UpPairs(at);
            forall k, l :: 0 <= k < l < |all| ==> Before(all[k], all[l])
  {
    var all := OfFirst(js) + UpPairs(at);
    forall k, l | 0 <= k < l < |all|
      ensures Before(all[k], all[l])
    {
      if l >= |js| {
        assert all[l].0 == at[l - |js|].0 + 1 && Wanted(partitions, at[l - |js|].0, at[l - |js|].1);
        if k >= |js| {
          assert Before(at[k - |js|], at[l - |js|]);
        }
      }
    }
  }

  // Each stateless service of an IPC partition of version 1.1 or later is collected exactly once, in the
  // order of the partitions and of the services within them, and nothing else is.
  lemma {:induction false} CollectedInOrder(partitions: seq<Partition>) returns (at: seq<(int, int)>)
    requires Collected(partitions).Ok?
    ensures |at| == |Collected(partitions).value|
    ensures forall k, l :: 0 <= k < l < |at| ==> Before(at[k], at[l])
    ensures forall i, j :: (i, j) in at <==> Wanted(partitions, i, j)
    ensures forall k :: 0 <= k < |at| ==>
              && Wanted(partitions, at[k].0, at[k].1)
              && Collected(partitions).value[k] == partitions[at[k].0].services[at[k].1].service
  {
    at := CollectedAt(partitions);
    forall i, j | (i, j) in at
      ensures Wanted(partitions, i, j)
    {
      var k :| 0 <= k < |at| && at[k] == (i, j);
    }
  }

  lemma {:induction false} CollectedAt(partitions: seq<Partition>) returns (at: seq<(int, int)>)
    requires Collected(partitions).Ok?
    ensures AtPairs(partitions, at, Collected(partitions).value)
  {
    if partitions == [] {
      at := [];
    } else {
      var later := CollectedAt(partitions[1..]);
      var rest := Collected(partitions[1..]).value;
      if partitions[0].frameworkVersion >= 1.1 && partitions[0].ipc {
        var js := StatelessAt(partitions[0].services);
        PairsFront(partitions, js, StatelessOf(partitions[0].services).value, later, rest);
        at := OfFirst(js) + UpPairs(later);
      } else {
        PairsBehind(partitions, later, rest);
        at := UpPairs(later);
        assert [] + rest == rest;
      }
    }
  }

  // ---------------------------------------------------------------- packing and unpacking

  // Or with a multiple of 2^k keeps the low k bits of the left side.
  lemma {:induction false} OrHigh(x: int, a: nat, y: nat, k: nat)
    requires a < Shl(1, k)
    ensures Or(Shl(x, k) + a, Shl(y, k)) == Shl(Or(x, y), k) + a
  {
    if k > 0 && y > 0 {
      OrHigh(x, a / 2, y, k - 1);
    }
  }

  // Or with a number below 2^k fills the low k bits of a multiple of 2^k.
  lemma {:induction false} OrLow(x: int, b: nat, k: nat)
    requires b < Shl(1, k)
    ensures Or(Shl(x, k), b) == Shl(x, k) + b
  {
    if k > 0 && b > 0 {
      OrLow(x, b / 2, k - 1);
    }
  }

  lemma ShlIsTimes(x: int)
    ensures Shl(x, 8) == 256 * x
  {
    assert Shl(x, 1) == 2 * x;
    assert Shl(x, 2) == 4 * x;
    assert Shl(x, 3) == 8 * x;
    assert Shl(x, 4) == 16 * x;
    assert Shl(x, 5) == 32 * x;
    assert Shl(x, 6) == 64 * x;
    assert Shl(x, 7) == 128 * x;
  }

  lemma {:induction false} OrZero(b: nat)
    ensures Or(0, b) == b
  {
    if b > 0 {
      OrZero(b / 2);
    }
  }

  // For any handle that fits its byte, the three fields stand side by side.
  lemma EncodedFields(n: nat, version: int)
    requires n < 256
    ensures EncodeHandle(n, version) == 0x4000_0000 + (version % 256) * 256 + n
  {
    hide Or, Shl;
    var w: nat := version % 256;
    ShlIsTimes(0);
    ShlIsTimes(1);
    ShlIsTimes(w);
    ShlIsTimes(0x40_0000);
    OrHigh(0, n, 0x40_0000, 8);
    OrZero(0x40_0000);
    assert Or(n, INDICATOR) == INDICATOR + n;
    OrHigh(0x40_0000, n, w, 8);
    assert 0x40_0000 == Shl(0x4000, 8) by {
      ShlIsTimes(0x4000);
    }
    OrLow(0x4000, w, 8);
    ShlIsTimes(0x40_0000 + w);
  }

  // The secure core's own decoding of a handle, on uint32_t.
  function IndexOf(handle: nat): nat {
    if handle % 256 == 0 then 0xFFFF_FFFF else handle % 256 - 1
  }

  function VersionOf(handle: nat): nat {
    (handle / 256) % 256
  }

  const STATIC_HANDLE_NUM_LIMIT: nat := 32

  predicate IsValidStatic(handle: nat) {
    (handle / 0x4000_0000) % 2 == 1 && IndexOf(handle) < STATIC_HANDLE_NUM_LIMIT
  }

  // The secure core reads back the position and the low byte of the version of every handle from
  // 1 to its limit, and refuses a packed handle 0.
  lemma EncodedDecodes(n: nat, version: int)
    requires n <= STATIC_HANDLE_NUM_LIMIT
    ensures EncodeHandle(n, version) >= 0
    ensures IsValidStatic(EncodeHandle(n, version)) <==> n >= 1
    ensures n >= 1 ==> IndexOf(EncodeHandle(n, version)) == n - 1
    ensures VersionOf(EncodeHandle(n, version)) == version % 256
  {
    hide EncodeHandle;
    EncodedFields(n, version);
  }

  lemma {:induction false} OrMinusOne(b: nat)
    ensures Or(-1, b) == -1
  {
    if b > 0 {
      OrMinusOne(b / 2);
    }
  }

  // A negative handle swallows the other two fields: the number stays as it is.
  lemma EncodedNegative(n: int, version: int)
    requires -256 <= n < 0
    ensures EncodeHandle(n, version) == n
  {
    hide Or, Shl;
    var w: nat := version % 256;
    ShlIsTimes(-1);
    ShlIsTimes(1);
    ShlIsTimes(w);
    ShlIsTimes(0x40_0000);
    OrHigh(-1, n + 256, 0x40_0000, 8);
    OrMinusOne(0x40_0000);
    OrHigh(-1, n + 256, w, 8);
    OrMinusOne(w);
  }

  lemma EncodedDiffer(m: int, n: int, v: int, w: int)
    requires -256 <= m < 256 && -256 <= n < 256 && m != n
    ensures EncodeHandle(m, v) != EncodeHandle(n, w)
  {
    hide EncodeHandle;
    if m < 0 {
      EncodedNegative(m, v);
    } else {
      EncodedFields(m, v);
    }
    if n < 0 {
      EncodedNegative(n, w);
    } else {
      EncodedFields(n, w);
    }
  }

  // ---------------------------------------------------------------- which services the walk visits

  predicate Explicit(store: seq<Service>, id: Id)
    requires id < |store|
  {
    store[id].handle != Auto
  }

  predicate Within(n: nat, list: seq<Id>) {
    forall j :: 0 <= j < |list| ==> list[j] < n
  }

  // A visited service is removed, and the service that followed it is then never looked at.
  function Visited(store: seq<Service>, list: seq<Id>): (r: seq<Id>)
    requires Within(|store|, list)
    ensures Within(|store|, r)
    ensures forall id :: id in r ==> id in list && Explicit(store, id)
  {
    if list == [] then []
    else if !Explicit(store, list[0]) then Visited(store, list[1..])
    else [list[0]] + (if |list| == 1 then [] else Visited(store, list[2..]))
  }

  function LeftOver(store: seq<Service>, list: seq<Id>): (r: seq<Id>)
    requires Within(|store|, list)
    ensures Within(|store|, r)
  {
    if list == [] then []
    else if !Explicit(store, list[0]) then [list[0]] + LeftOver(store, list[1..])
    else if |list| == 1 then []
    else [list[1]] + LeftOver(store, list[2..])
  }

  function PlaceAll(store: seq<Service>, ids: seq<Id>, slots: Slots): Result<Slots>
    requires Within(|store|, ids)
  {
    if ids == [] then Ok(slots)
    else
      match PlaceOne(store, ids[0], slots)
      case Err(e) => Err(e)
      case Ok(placed) => PlaceAll(store, ids[1..], placed)
  }

  predicate Distinct<T(==)>(s: seq<T>) {
    forall i, j :: 0 <= i < j < |s| ==> s[i] != s[j]
  }

  // ---------------------------------------------------------------- what the removals leave

  // An equal entry in front of the service is removed in its place; either way the list behind the
  // service moves up by one.
  lemma {:induction false} RemoveInFront(store: seq<Service>, front: seq<Id>, rest: seq<Id>, id: Id)
    requires Within(|store|, front) && Within(|store|, rest) && id in front
    ensures Within(|store|, front + rest)
    ensures RemoveFirst(store, front + rest, id) == RemoveFirst(store, front, id) + rest
  {
    var list := front + rest;
    assert list[0] == front[0] && list[1..] == front[1..] + rest;
    if store[front[0]] != store[id] {
      RemoveInFront(store, front[1..], rest, id);
      assert [front[0]] + (RemoveFirst(store, front[1..], id) + rest) ==
             [front[0]] + RemoveFirst(store, front[1..], id) + rest;
    }
  }

  // What the walk keeps, having kept `prefix` so far.
  function LeftAfter(store: seq<Service>, prefix: seq<Id>, rest: seq<Id>): (r: seq<Id>)
    requires Within(|store|, prefix) && Within(|store|, rest)
    ensures Within(|store|, r)
    decreases |rest|
  {
    if rest == [] then prefix
    else if !Explicit(store, rest[0]) then LeftAfter(store, prefix + [rest[0]], rest[1..])
    else
      var kept := Kept(store, prefix, rest[0]);
      if |rest| == 1 then kept else LeftAfter(store, kept + [rest[1]], rest[2..])
  }

  function Kept(store: seq<Service>, prefix: seq<Id>, id: Id): (r: seq<Id>)
    requires Within(|store|, prefix) && id < |store|
    ensures Within(|store|, r) && |r| == |prefix|
  {
    RemoveFirstShorter(store, prefix + [id], id);
    RemoveFirst(store, prefix + [id], id)
  }

  // The visited ones placed in order, and what the removals leave.
  function PlacesVisited(store: seq<Service>, prefix: seq<Id>, rest: seq<Id>, slots: Slots)
    : Result<(seq<Id>, Slots)>
    requires Within(|store|, prefix) && Within(|store|, rest)
  {
    match PlaceAll(store, Visited(store, rest), slots)
    case Err(e) => Err(e)
    case Ok(placed) => Ok((LeftAfter(store, prefix, rest), placed))
  }

  lemma PlacesVisitedExplicit(store: seq<Service>, prefix: seq<Id>, rest: seq<Id>, slots: Slots)
    requires Within(|store|, prefix) && Within(|store|, rest) && rest != [] && Explicit(store, rest[0])
    ensures PlacesVisited(store, prefix, rest, slots) ==
            match PlaceOne(store, rest[0], slots)
            case Err(e) => Err(e)
            case Ok(placed) =>
              if |rest| == 1 then Ok((Kept(store, prefix, rest[0]), placed))
              else PlacesVisited(store, Kept(store, prefix, rest[0]) + [rest[1]], rest[2..], placed)
  {
    hide PlaceOne, Explicit, Kept;
    var visited := Visited(store, rest);
    var one := PlaceOne(store, rest[0], slots);
    assert visited[0] == rest[0];
    if |rest| == 1 {
      assert visited[1..] == [];
      assert one.Ok? ==> PlaceAll(store, visited[1..], one.value) == one;
    } else {
      assert visited[1..] == Visited(store, rest[2..]);
    }
  }

  // One visit: some entry leaves the list and the index moves past the service's successor.
  lemma WalkStep(store: seq<Service>, prefix: seq<Id>, rest: seq<Id>, slots: Slots)
    requires Within(|store|, prefix) && Within(|store|, rest) && rest != [] && Explicit(store, rest[0])
    ensures Within(|store|, prefix + rest) && Within(|store|, Kept(store, prefix, rest[0]) + rest[1..])
    ensures Walk(store, prefix + rest, |prefix|, slots) ==
            match PlaceOne(store, rest[0], slots)
            case Err(e) => Err(e)
            case Ok(placed) => Walk(store, Kept(store, prefix, rest[0]) + rest[1..], |prefix| + 1, placed)
  {
    hide PlaceOne;
    var id := rest[0];
    assert (prefix + rest)[|prefix|] == id;
    assert prefix + rest == prefix + [id] + rest[1..];
    assert (prefix + [id])[|prefix|] == id;
    RemoveInFront(store, prefix + [id], rest[1..], id);
    RemoveFirstShorter(store, prefix + rest, id);
  }

  // One "auto" service: the walk and its account pass over it.
  lemma WalkAuto(store: seq<Service>, prefix: seq<Id>, rest: seq<Id>, slots: Slots)
    requires Within(|store|, prefix) && Within(|store|, rest) && rest != [] && !Explicit(store, rest[0])
    ensures Within(|store|, prefix + rest) && prefix + rest == prefix + [rest[0]] + rest[1..]
    ensures Walk(store, prefix + rest, |prefix|, slots) == Walk(store, prefix + rest, |prefix| + 1, slots)
    ensures PlacesVisited(store, prefix, rest, slots) == PlacesVisited(store, prefix + [rest[0]], rest[1..], slots)
  {
    hide PlaceAll, PlaceOne, Kept;
    assert (prefix + rest)[|prefix|] == rest[0];
  }

  lemma WalkEnd(store: seq<Service>, list: seq<Id>, slots: Slots)
    requires Within(|store|, list)
    ensures Walk(store, list, |list|, slots) == Ok((list, slots)) == PlacesVisited(store, list, [], slots)
  {
  }

  // The walk places exactly the visited ones, in order, whichever entries its removals hit.
  lemma {:induction false} WalkVisits(store: seq<Service>, prefix: seq<Id>, rest: seq<Id>, slots: Slots)
    requires Within(|store|, prefix) && Within(|store|, rest)
    ensures Within(|store|, prefix + rest)
    ensures Walk(store, prefix + rest, |prefix|, slots) == PlacesVisited(store, prefix, rest, slots)
    decreases |rest|
  {
    hide PlaceOne, Kept, PlacesVisited, Walk, Explicit;
    if rest == [] {
      assert prefix + rest == prefix;
      WalkEnd(store, prefix, slots);
    } else if !Explicit(store, rest[0]) {
      WalkAuto(store, prefix, rest, slots);
      WalkVisits(store, prefix + [rest[0]], rest[1..], slots);
    } else {
      WalkStep(store, prefix, rest, slots);
      PlacesVisitedExplicit(store, prefix, rest, slots);
      var kept := Kept(store, prefix, rest[0]);
      var one := PlaceOne(store, rest[0], slots);
      if one.Ok? {
        if |rest| == 1 {
          assert kept + rest[1..] == kept;
          WalkPastEnd(store, kept, one.value);
        } else {
          assert kept + rest[1..] == kept + [rest[1]] + rest[2..];
          WalkVisits(store, kept + [rest[1]], rest[2..], one.value);
        }
      }
    }
  }

  lemma WalkPastEnd(store: seq<Service>, list: seq<Id>, slots: Slots)
    requires Within(|store|, list)
    ensures Walk(store, list, |list| + 1, slots) == Ok((list, slots))
  {
  }

  predicate Ascending(list: seq<Id>) {
    forall i, j :: 0 <= i < j < |list| ==> list[i] < list[j]
  }

  lemma AscendingJoin(a: seq<Id>, b: seq<Id>)
    requires Ascending(a) && Ascending(b) && forall x, y :: x in a && y in b ==> x < y
    ensures Ascending(a + b)
  {
    var list := a + b;
    forall i, j | 0 <= i < j < |list|
      ensures list[i] < list[j]
    {
      if i < |a| <= j {
        assert list[i] in a && list[j] in b;
      }
    }
  }

  // m is the least entry of the list equal to the service, and r the list without it.
  ghost predicate TakesLeast(store: seq<Service>, list: seq<Id>, id: Id, m: Id, r: seq<Id>)
    requires Within(|store|, list) && id < |store|
  {
    && m in list && store[m] == store[id] && (forall y :: y in list && store[y] == store[id] ==> m <= y)
    && Ascending(r) && (forall y :: y in r <==> y in list && y != m)
  }

  lemma TakesHead(store: seq<Service>, list: seq<Id>, id: Id)
    requires Within(|store|, list) && Ascending(list) && list != [] && id < |store| && store[list[0]] == store[id]
    ensures TakesLeast(store, list, id, list[0], list[1..])
  {
    assert forall y :: y in list <==> y == list[0] || y in list[1..];
    assert forall y :: y in list[1..] ==> list[0] < y;
  }

  lemma TakesBehindHead(store: seq<Service>, list: seq<Id>, id: Id, m: Id, r: seq<Id>)
    requires Within(|store|, list) && Ascending(list) && list != [] && id < |store| && store[list[0]] != store[id]
    requires TakesLeast(store, list[1..], id, m, r)
    ensures TakesLeast(store, list, id, m, [list[0]] + r)
  {
    assert forall y :: y in list <==> y == list[0] || y in list[1..];
    assert forall y :: y in list[1..] ==> list[0] < y;
    AscendingJoin([list[0]], r);
    assert forall y :: y in [list[0]] + r <==> y == list[0] || y in r;
  }

  // From an ascending list the removal takes the least entry equal to the service.
  lemma {:induction false} RemovesLeast(store: seq<Service>, list: seq<Id>, id: Id) returns (m: Id)
    requires Within(|store|, list) && Ascending(list) && id in list
    ensures TakesLeast(store, list, id, m, RemoveFirst(store, list, id))
  {
    if store[list[0]] == store[id] {
      m := list[0];
      TakesHead(store, list, id);
    } else {
      assert Ascending(list[1..]);
      m := RemovesLeast(store, list[1..], id);
      TakesBehindHead(store, list, id, m, RemoveFirst(store, list[1..], id));
    }
  }

  // No service before v is equal to it.
  predicate FirstOfKind(store: seq<Service>, v: Id)
    requires v < |store|
  {
    forall u :: 0 <= u < v ==> store[u] != store[v]
  }

  lemma SplitAscending(prefix: seq<Id>, rest: seq<Id>)
    requires rest != [] && Ascending(prefix + rest)
    ensures Ascending(prefix + [rest[0]]) && forall y :: y in prefix ==> y < rest[0]
    ensures forall x, y :: x in prefix + [rest[0]] && y in rest[1..] ==> x < y
  {
    var list := prefix + rest;
    forall x, y | x in prefix + [rest[0]] && y in rest[1..]
      ensures x < y
    {
      var i :| 0 <= i < |prefix| + 1 && (prefix + [rest[0]])[i] == x;
      var j :| 0 <= j < |rest[1..]| && rest[1..][j] == y;
      assert list[i] == x && list[|prefix| + 1 + j] == y;
    }
    forall y | y in prefix
      ensures y < rest[0]
    {
      var i :| 0 <= i < |prefix| && prefix[i] == y;
      assert list[i] == y && list[|prefix|] == rest[0];
    }
    assert forall i :: 0 <= i < |prefix| + 1 ==> (prefix + [rest[0]])[i] == list[i];
  }

  // What a visit keeps of the prefix: all entries but the least equal one, in order.
  lemma KeptAscending(store: seq<Service>, prefix: seq<Id>, rest: seq<Id>) returns (m: Id)
    requires Within(|store|, prefix) && Within(|store|, rest) && rest != [] && Ascending(prefix + rest)
    ensures m in prefix + [rest[0]] && store[m] == store[rest[0]]
    ensures forall y :: y in prefix + [rest[0]] && store[y] == store[rest[0]] ==> m <= y
    ensures forall y :: y in Kept(store, prefix, rest[0]) <==> y in prefix + [rest[0]] && y != m
    ensures Ascending(Kept(store, prefix, rest[0]) + rest[1..])
  {
    SplitAscending(prefix, rest);
    var id := rest[0];
    assert (prefix + [id])[|prefix|] == id;
    m := RemovesLeast(store, prefix + [id], id);
    var kept := Kept(store, prefix, id);
    assert forall j :: 0 <= j < |rest[1..]| ==> rest[1..][j] == (prefix + rest)[|prefix| + 1 + j];
    AscendingJoin(kept, rest[1..]);
  }

  // If every visited service is the first of its kind, the removals take exactly these.
  lemma {:induction false} LeftWhenFirst(store: seq<Service>, prefix: seq<Id>, rest: seq<Id>)
    requires Within(|store|, prefix) && Within(|store|, rest) && Ascending(prefix + rest)
    requires forall v :: v in Visited(store, rest) ==> FirstOfKind(store, v)
    ensures LeftAfter(store, prefix, rest) == prefix + LeftOver(store, rest)
    decreases |rest|
  {
    hide Ascending, Kept, FirstOfKind;
    if rest == [] {
      assert prefix + [] == prefix;
    } else if !Explicit(store, rest[0]) {
      assert prefix + rest == prefix + [rest[0]] + rest[1..];
      LeftWhenFirst(store, prefix + [rest[0]], rest[1..]);
      assert prefix + ([rest[0]] + LeftOver(store, rest[1..])) == prefix + [rest[0]] + LeftOver(store, rest[1..]);
    } else {
      assert Visited(store, rest)[0] == rest[0];
      KeptWhenFirst(store, prefix, rest);
      if |rest| == 1 {
        assert prefix + [] == prefix;
      } else {
        LeftAtVisit(store, prefix, rest);
        LeftWhenFirst(store, prefix + [rest[1]], rest[2..]);
      }
    }
  }

  lemma LeftAtVisit(store: seq<Service>, prefix: seq<Id>, rest: seq<Id>)
    requires Within(|store|, prefix) && Within(|store|, rest) && |rest| > 1 && Explicit(store, rest[0])
    requires Kept(store, prefix, rest[0]) == prefix
    ensures prefix + rest[1..] == prefix + [rest[1]] + rest[2..]
    ensures LeftAfter(store, prefix, rest) == LeftAfter(store, prefix + [rest[1]], rest[2..])
    ensures prefix + LeftOver(store, rest) == prefix + [rest[1]] + LeftOver(store, rest[2..])
    ensures forall v :: v in Visited(store, rest[2..]) ==> v in Visited(store, rest)
  {
    hide Kept, Explicit, Visited, LeftAfter, LeftOver, Within;
    LeftAfterVisit(store, prefix, rest);
    LeftOverFrom(store, rest);
    VisitedFrom(store, rest);
    Regroup(prefix, rest, LeftOver(store, rest[2..]));
  }

  lemma Regroup(prefix: seq<Id>, rest: seq<Id>, later: seq<Id>)
    requires |rest| > 1
    ensures prefix + rest[1..] == prefix + [rest[1]] + rest[2..]
    ensures prefix + ([rest[1]] + later) == prefix + [rest[1]] + later
  {
  }

  lemma LeftOverFrom(store: seq<Service>, rest: seq<Id>)
    requires Within(|store|, rest) && |rest| > 1 && Explicit(store, rest[0])
    ensures Within(|store|, rest[2..]) && LeftOver(store, rest) == [rest[1]] + LeftOver(store, rest[2..])
  {
    hide Explicit;
  }

  lemma LeftAfterVisit(store: seq<Service>, prefix: seq<Id>, rest: seq<Id>)
    requires Within(|store|, prefix) && Within(|store|, rest) && rest != [] && Explicit(store, rest[0])
    ensures LeftAfter(store, prefix, rest) ==
            if |rest| == 1 then Kept(store, prefix, rest[0])
            else LeftAfter(store, Kept(store, prefix, rest[0]) + [rest[1]], rest[2..])
  {
    hide Kept, Explicit;
  }

  lemma VisitedFrom(store: seq<Service>, rest: seq<Id>)
    requires Within(|store|, rest) && rest != [] && Explicit(store, rest[0])
    ensures Visited(store, rest) == [rest[0]] + if |rest| == 1 then [] else Visited(store, rest[2..])
  {
    hide Explicit;
  }

  lemma KeptWhenFirst(store: seq<Service>, prefix: seq<Id>, rest: seq<Id>)
    requires Within(|store|, prefix) && Within(|store|, rest) && rest != [] && Ascending(prefix + rest)
    requires FirstOfKind(store, rest[0])
    ensures Kept(store, prefix, rest[0]) == prefix && Ascending(prefix + rest[1..])
  {
    SplitAscending(prefix, rest);
    var _ := KeptAscending(store, prefix, rest);
    RemoveLast(store, prefix, rest[0]);
  }

  lemma {:induction false} RemoveLast(store: seq<Service>, prefix: seq<Id>, id: Id)
    requires Within(|store|, prefix) && id < |store| && forall y :: y in prefix ==> store[y] != store[id]
    ensures Within(|store|, prefix + [id]) && RemoveFirst(store, prefix + [id], id) == prefix
  {
    var list := prefix + [id];
    if prefix == [] {
      assert list[1..] == [];
    } else {
      assert list[1..] == prefix[1..] + [id];
      RemoveLast(store, prefix[1..], id);
    }
  }

  lemma {:induction false} LeftAfterMembers(store: seq<Service>, prefix: seq<Id>, rest: seq<Id>, y: Id)
    requires Within(|store|, prefix) && Within(|store|, rest) && Ascending(prefix + rest)
    requires y in LeftAfter(store, prefix, rest)
    ensures y in prefix + rest
    decreases |rest|
  {
    hide Kept, Explicit, Ascending;
    if rest == [] {
    } else if !Explicit(store, rest[0]) {
      assert prefix + rest == prefix + [rest[0]] + rest[1..];
      LeftAfterMembers(store, prefix + [rest[0]], rest[1..], y);
    } else {
      var _ := KeptAscending(store, prefix, rest);
      var kept := Kept(store, prefix, rest[0]);
      if |rest| > 1 {
        assert kept + rest[1..] == kept + [rest[1]] + rest[2..];
        LeftAfterMembers(store, kept + [rest[1]], rest[2..], y);
      }
    }
  }

  predicate AllDiffer(store: seq<Service>, ids: seq<Id>)
    requires Within(|store|, ids)
  {
    forall a, b :: a in ids && b in ids && a != b ==> store[a] != store[b]
  }

  // x is the least entry of the list equal to v.
  predicate IsLeast(store: seq<Service>, list: seq<Id>, x: Id, v: Id)
    requires Within(|store|, list) && v < |store|
  {
    x in list && store[x] == store[v] && forall y :: y in list && store[y] == store[v] ==> x <= y
  }

  // If a visited service has an equal before it, the least equal is removed in its place and is gone.
  lemma {:induction false} LeastIsGone(store: seq<Service>, prefix: seq<Id>, rest: seq<Id>, x: Id, v: Id)
    requires Within(|store|, prefix) && Within(|store|, rest) && Ascending(prefix + rest)
    requires v in Visited(store, rest) && IsLeast(store, prefix + rest, x, v) && AllDiffer(store, Visited(store, rest))
    ensures x !in LeftAfter(store, prefix, rest)
    decreases |rest|
  {
    hide Kept, Ascending, Explicit, IsLeast;
    assert prefix + rest == prefix + [rest[0]] + rest[1..];
    if !Explicit(store, rest[0]) {
      LeastIsGone(store, prefix + [rest[0]], rest[1..], x, v);
    } else {
      hide LeftAfter;
      LeftAfterVisit(store, prefix, rest);
      var kept := Kept(store, prefix, rest[0]);
      if rest[0] == v {
        GoneNow(store, prefix, rest, x);
      } else {
        assert v in Visited(store, rest[2..]) && AllDiffer(store, Visited(store, rest[2..])) by {
          VisitedFrom(store, rest);
        }
        StillLeast(store, prefix, rest, x, v);
        LeastIsGone(store, kept + [rest[1]], rest[2..], x, v);
      }
    }
  }

  lemma GoneNow(store: seq<Service>, prefix: seq<Id>, rest: seq<Id>, x: Id)
    requires Within(|store|, prefix) && Within(|store|, rest) && rest != [] && Ascending(prefix + rest)
    requires Explicit(store, rest[0]) && IsLeast(store, prefix + rest, x, rest[0])
    ensures x !in LeftAfter(store, prefix, rest)
  {
    hide Kept, Ascending, Explicit, LeftAfter;
    SplitAscending(prefix, rest);
    var m := KeptAscending(store, prefix, rest);
    var kept := Kept(store, prefix, rest[0]);
    assert prefix + rest == prefix + [rest[0]] + rest[1..];
    LeastTaken(store, prefix, rest, x, m);
    LeftAfterVisit(store, prefix, rest);
    if |rest| > 1 {
      assert kept + rest[1..] == kept + [rest[1]] + rest[2..];
      if x in LeftAfter(store, kept + [rest[1]], rest[2..]) {
        LeftAfterMembers(store, kept + [rest[1]], rest[2..], x);
      }
    }
  }

  lemma StillLeast(store: seq<Service>, prefix: seq<Id>, rest: seq<Id>, x: Id, v: Id)
    requires Within(|store|, prefix) && Within(|store|, rest) && |rest| > 1 && Ascending(prefix + rest)
    requires v < |store| && IsLeast(store, prefix + rest, x, v) && store[rest[0]] != store[v]
    ensures var next := Kept(store, prefix, rest[0]) + [rest[1]];
            Ascending(next + rest[2..]) && IsLeast(store, next + rest[2..], x, v)
  {
    hide Kept, Ascending;
    var m := KeptAscending(store, prefix, rest);
    var kept := Kept(store, prefix, rest[0]);
    assert kept + rest[1..] == kept + [rest[1]] + rest[2..];
    assert prefix + rest == prefix + [rest[0]] + rest[1..];
  }

  lemma LeastTaken(store: seq<Service>, prefix: seq<Id>, rest: seq<Id>, x: Id, m: Id)
    requires Within(|store|, prefix) && Within(|store|, rest) && rest != []
    requires forall a, b :: a in prefix + [rest[0]] && b in rest[1..] ==> a < b
    requires x in prefix + [rest[0]] + rest[1..] && store[x] == store[rest[0]]
    requires forall y :: y in prefix + [rest[0]] + rest[1..] && store[y] == store[rest[0]] ==> x <= y
    requires m in prefix + [rest[0]] && store[m] == store[rest[0]]
    requires forall y :: y in prefix + [rest[0]] && store[y] == store[rest[0]] ==> m <= y
    ensures x == m && x !in rest[1..]
  {
    var front := prefix + [rest[0]];
    assert front[|prefix|] == rest[0];
    assert rest[0] in front && rest[0] in front + rest[1..] && m in front + rest[1..];
  }

  predicate NoAdjacentExplicit(store: seq<Service>, list: seq<Id>)
    requires Within(|store|, list)
  {
    forall j :: 0 <= j < |list| - 1 ==> !(Explicit(store, list[j]) && Explicit(store, list[j + 1]))
  }

  // Every explicit service is visited exactly when no two of them stand next to each other.
  lemma {:induction false} AllVisitedExactly(store: seq<Service>, list: seq<Id>)
    requires Within(|store|, list) && Distinct(list)
    ensures (forall id :: id in list && Explicit(store, id) ==> id in Visited(store, list)) <==>
            NoAdjacentExplicit(store, list)
    decreases |list|
  {
    if |list| >= 2 {
      var skip := if Explicit(store, list[0]) then 2 else 1;
      AllVisitedExactly(store, list[skip..]);
      if Explicit(store, list[0]) && Explicit(store, list[1]) {
        assert list[1] !in list[2..];
        assert list[1] !in Visited(store, list);
      } else {
        AdjacencyOfTail(store, list, skip);
        assert forall id :: id in list ==> id in list[..skip] || id in list[skip..];
      }
    }
  }

  lemma AdjacencyOfTail(store: seq<Service>, list: seq<Id>, skip: nat)
    requires Within(|store|, list) && 1 <= skip <= 2 <= |list|
    requires skip == 2 ==> !Explicit(store, list[1])
    requires skip == 1 ==> !Explicit(store, list[0])
    ensures NoAdjacentExplicit(store, list) <==> NoAdjacentExplicit(store, list[skip..])
  {
    var tail := list[skip..];
    if NoAdjacentExplicit(store, tail) {
      forall j | 0 <= j < |list| - 1
        ensures !(Explicit(store, list[j]) && Explicit(store, list[j + 1]))
      {
        if j >= skip {
          assert tail[j - skip] == list[j] && tail[j - skip + 1] == list[j + 1];
        }
      }
    }
    if NoAdjacentExplicit(store, list) {
      forall j | 0 <= j < |tail| - 1
        ensures !(Explicit(store, tail[j]) && Explicit(store, tail[j + 1]))
      {
        assert tail[j] == list[j + skip] && tail[j + 1] == list[j + skip + 1];
      }
    }
  }

  lemma SplitOne(a: Id, v: seq<Id>, l: seq<Id>, rest: seq<Id>)
    requires multiset(v) + multiset(l) == multiset(rest)
    ensures multiset(v) + multiset([a] + l) == multiset([a] + rest)
    ensures multiset([a] + v) + multiset(l) == multiset([a] + rest)
  {
  }

  // Visiting and keeping split the list.
  lemma {:induction false} VisitedAndLeft(store: seq<Service>, list: seq<Id>)
    requires Within(|store|, list)
    ensures multiset(Visited(store, list)) + multiset(LeftOver(store, list)) == multiset(list)
    decreases |list|
  {
    hide Explicit;
    if list != [] {
      assert list == [list[0]] + list[1..];
      if !Explicit(store, list[0]) {
        VisitedAndLeft(store, list[1..]);
        SplitOne(list[0], Visited(store, list[1..]), LeftOver(store, list[1..]), list[1..]);
      } else if |list| > 1 {
        VisitedAndLeft(store, list[2..]);
        var v, l := Visited(store, list[2..]), LeftOver(store, list[2..]);
        assert list[1..] == [list[1]] + list[2..];
        SplitOne(list[1], v, l, list[2..]);
        SplitOne(list[0], v, [list[1]] + l, list[1..]);
      } else {
        assert list[1..] == [];
      }
    }
  }
}
