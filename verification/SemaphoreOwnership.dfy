/**
 The semaphore build: when two tasks never own the same slot, and that every task then reads the
 answer to its own request.
 */
module SemaphoreOwnership {
  import opened Histories
  import opened MailboxTypes
  import opened Wrappers
  import opened SemaphoreBuild
  import opened SemaphorePermits

  // ---------- the history of one call ----------

  // h is a prefix of pend, take, answer, return with one message, one slot and one value.
  predicate Canonical(h: seq<Event>) {
    && |h| <= 4
    && (|h| > 0 ==> h[0].Pend?)
    && (|h| > 1 ==> h[1].Take? && h[1].msg == h[0].msg && h[1].slot == h[0].slot)
    && (|h| > 2 ==> h[2].Answer? && h[2].slot == h[0].slot)
    && (|h| > 3 ==> h[3].Return? && h[3].value == h[2].value)
  }

  // ---------- ownership ----------

  ghost predicate Exclusive(s: State) {
    forall c, d, i | HoldsSlot(s, c, i) && HoldsSlot(s, d, i) :: c == d
  }

  // The configurations in which no claim can come between the snapshot and the claim of another task:
  // the acquire is one step, or there is one slot, or there are fewer than two tasks.
  predicate NoRace(s: State) {
    s.atomicAcquire || |s.all| == 1 || AtMostOneTask(s)
  }

  predicate AtMostOneTask(s: State) {
    forall c, d | c in s.clients.Keys && d in s.clients.Keys :: c == d
  }

  // ---------- what the marks of a slot say ----------

  datatype Marks = Marks(pend: bool, secure: Option<SecurePc>, replied: bool, undelivered: bool, beingWoken: bool)

  ghost function MarksOf(s: State, i: SlotIdx): Marks {
    Marks(
      i in s.pend,
      if i in s.secure then Some(s.secure[i]) else None,
      i in s.replied,
      i in s.remaining && s.isr != Waking(i),
      s.isr == Waking(i))
  }

  function B(b: bool): nat { if b then 1 else 0 }

  // The number of places the slot's request is in.
  function Places(m: Marks, isWoken: bool): nat {
    B(m.pend) + B(m.secure.Some?) + B(m.replied) + B(m.undelivered) + B(isWoken)
  }

  function Stage(m: Marks): nat {
    if m.pend then 1 else if m.secure == Some(Handling) then 2 else 3
  }

  // A task that owns a slot.
  ghost predicate OwnerOk(c: Task, k: Client, i: SlotIdx, slot: Slot, m: Marks, h: seq<Event>) {
    && Places(m, slot.isWoken) == (if k.pc.Awaits() then 1 else 0)
    && Canonical(h) && (|h| > 0 ==> h[0].slot == i && h[0].msg == k.msg)
    && (k.pc.FillingMsg? || k.pc.SettingOwner? || k.pc.Pending? ==> h == [])
    && (!k.pc.FillingMsg? ==> slot.msg == k.msg && slot.stamp == CallId(c, k.serial))
    && (k.pc.Pending? || k.pc.Awaits() ==> slot.owner == Some(c))
    && (k.pc.Awaits() ==> |h| == Stage(m))
    && (k.pc.Reading? || k.pc.Disowning? || k.pc.Freeing? ==> |h| == 3)
    && (|h| == 3 && (k.pc.Awaits() || k.pc.Reading?) ==> slot.returnVal == h[2].value)
    && (k.pc.Disowning? || k.pc.Freeing? ==> k.replyBuf == h[2].value)
    && (k.pc.Waiting? && slot.isWoken && !k.threadFlag ==> m.beingWoken)
  }

  // A task without a slot.
  ghost predicate IdlerOk(k: Client, h: seq<Event>, empty: set<SlotIdx>) {
    && (k.pc.Claiming? ==> k.pc.status <= empty)
    && if k.pc.Leaving? then |h| == 4 && Canonical(h) && h[0].msg == k.msg && k.replyCell == h[3].value else h == []
  }

  ghost predicate ClientOk(s: State, c: Task)
    requires c in s.clients
  {
    var k := s.clients[c];
    var h := History(s.log, CallId(c, k.serial));
    if k.pc.HasSlot()
    then
      && k.pc.idx in s.slots && k.pc.idx !in s.empty
      && OwnerOk(c, k, k.pc.idx, s.slots[k.pc.idx], MarksOf(s, k.pc.idx), h)
    else IdlerOk(k, h, s.empty)
  }

  ghost predicate ClientsOk(s: State) {
    forall c | c in s.clients :: ClientOk(s, c)
  }

  ghost predicate FreeOk(s: State) {
    forall i | i in s.empty && i in s.slots :: Places(MarksOf(s, i), s.slots[i].isWoken) == 0
  }

  ghost predicate IsrOk(s: State) {
    match s.isr
    case Quiet => s.remaining == {}
    case Flagging => s.remaining != {}
    case Waking(i) => i in s.remaining
  }

  ghost predicate InRange(s: State) {
    s.pend <= s.all && s.replied <= s.all && s.remaining <= s.all && s.secure.Keys <= s.all
  }

  ghost predicate PastOk(clients: map<Task, Client>, id: CallId, h: seq<Event>) {
    && Canonical(h)
    && (id.task in clients && id.serial < clients[id.task].serial ==> |h| == 4)
    && (id.task !in clients || id.serial > clients[id.task].serial ==> h == [])
  }

  ghost predicate PastsOk(s: State) {
    forall id: CallId {:trigger History(s.log, id)} :: PastOk(s.clients, id, History(s.log, id))
  }

  // Without the atomic acquire, at most one task is inside at a time.
  ghost predicate Alone(s: State) {
    && (s.atomicAcquire ==> forall c | c in s.clients :: !s.clients[c].pc.Claiming?)
    && (!s.atomicAcquire ==> forall c, d | c in Holders(s) && d in Holders(s) :: c == d)
  }

  ghost predicate OwnInv(s: State) {
    && PermitInv(s) && Exclusive(s) && Alone(s)
    && ClientsOk(s) && FreeOk(s) && IsrOk(s) && InRange(s) && PastsOk(s)
  }

  lemma InitOwn(s: State)
    requires Init(s)
    ensures OwnInv(s)
  {
    InitPermit(s);
  }

  // ---------- ownership is kept by every step of a one-step configuration ----------

  lemma SubsetSize(A: set<Task>, B: set<Task>)
    requires A <= B
    ensures |A| <= |B|
  {
    assert B == A + (B - A);
  }

  // With one slot the permits alone keep all but one task out.
  lemma AloneFromPermits(s: State)
    requires PermitInv(s) && |s.all| == 1
    ensures forall c, d | c in Holders(s) && d in Holders(s) :: c == d
  {
    forall c, d | c in Holders(s) && d in Holders(s) ensures c == d {
      if c != d {
        assert {c, d} <= Holders(s);
        SubsetSize({c, d}, Holders(s));
      }
    }
  }

  lemma StepAlone(s: State, t: Step)
    requires PermitInv(s) && Alone(s) && NoRace(s) && Enabled(s, t)
    ensures PermitInv(Apply(s, t)) && Alone(Apply(s, t))
  {
    StepPermit(s, t);
    StepConfig(s, t);
    hide Apply, Enabled;
    if s.atomicAcquire {
      hide PermitInv, Holders;
      StepNotClaiming(s, t);
    } else if |s.all| == 1 {
      AloneFromPermits(Apply(s, t));
    } else {
      hide PermitInv;
      assert forall c | c in Holders(Apply(s, t)) :: c in s.clients.Keys;
    }
  }

  lemma StepNotClaiming(s: State, t: Step)
    requires s.atomicAcquire && Enabled(s, t) && forall c | c in s.clients :: !s.clients[c].pc.Claiming?
    ensures forall c | c in Apply(s, t).clients :: !Apply(s, t).clients[c].pc.Claiming?
  {
    hide Apply, Enabled;
    if OffClient(t) {
      OffClientNotClaiming(s, t);
    } else {
      ClientNotClaiming(s, t);
    }
  }

  lemma OffClientNotClaiming(s: State, t: Step)
    requires Enabled(s, t) && OffClient(t) && forall c | c in s.clients :: !s.clients[c].pc.Claiming?
    ensures forall c | c in Apply(s, t).clients :: !Apply(s, t).clients[c].pc.Claiming?
  {
  }

  lemma ClientNotClaiming(s: State, t: Step)
    requires s.atomicAcquire && Enabled(s, t) && !OffClient(t)
    requires forall c | c in s.clients :: !s.clients[c].pc.Claiming?
    ensures forall c | c in Apply(s, t).clients :: !Apply(s, t).clients[c].pc.Claiming?
  {
    var s' := Apply(s, t);
    assert s'.clients == s.clients[t.c := s'.clients[t.c]];
    assert !s'.clients[t.c].pc.Claiming?;
  }

  // Task d sees no difference between s and s'.
  ghost predicate Unseen(s: State, s': State, d: Task)
    requires d in s.clients
  {
    var k := s.clients[d];
    && d in s'.clients && s'.clients[d] == k
    && History(s'.log, CallId(d, k.serial)) == History(s.log, CallId(d, k.serial))
    && (k.pc.HasSlot() && k.pc.idx in s.slots ==>
        && k.pc.idx in s'.slots && s'.slots[k.pc.idx] == s.slots[k.pc.idx]
        && MarksOf(s', k.pc.idx) == MarksOf(s, k.pc.idx)
        && (k.pc.idx in s'.empty ==> k.pc.idx in s.empty))
    && (k.pc.Claiming? && k.pc.status <= s.empty ==> k.pc.status <= s'.empty)
  }

  lemma UnseenOk(s: State, s': State, d: Task)
    requires d in s.clients && ClientOk(s, d) && Unseen(s, s', d)
    ensures ClientOk(s', d)
  {
    hide History, OwnerOk;
  }

  // A step of client c that works on at most its own slot keeps the other clients.
  ghost predicate OwnSlotOnly(s: State, s': State, c: Task) {
    && c in s.clients && c in s'.clients && s'.clients == s.clients[c := s'.clients[c]]
    && s'.all == s.all && s'.atomicAcquire == s.atomicAcquire
    && s'.isr == s.isr && s'.remaining == s.remaining && s'.replied == s.replied && s'.secure == s.secure
    && s'.slots.Keys == s.slots.Keys
    && (forall j | j in s.slots && !HoldsSlot(s, c, j) ::
          s'.slots[j] == s.slots[j] && (j in s'.pend <==> j in s.pend) && (j in s'.empty ==> j in s.empty))
    && s'.pend <= s.all
  }

  // The log grows by nothing or by an event of c's own call.
  ghost predicate OwnEventOnly(s: State, s': State, c: Task) {
    && c in s.clients
    && forall id: CallId {:trigger History(s'.log, id)} ::
         id != CallId(c, s.clients[c].serial) ==> History(s'.log, id) == History(s.log, id)
  }

  lemma OthersOk(s: State, s': State, c: Task)
    requires ClientsOk(s) && Exclusive(s) && OwnSlotOnly(s, s', c) && OwnEventOnly(s, s', c) && ClientOk(s', c)
    requires s.empty <= s'.empty || (forall d | d in s.clients && d != c :: !s.clients[d].pc.Claiming?)
    ensures ClientsOk(s')
  {
    hide History, OwnerOk, Places;
    forall d | d in s'.clients ensures ClientOk(s', d) {
      if d != c {
        assert ClientOk(s, d);
        if s.clients[d].pc.HasSlot() {
          assert HoldsSlot(s, d, s.clients[d].pc.idx);
        }
        UnseenOk(s, s', d);
      }
    }
  }

  lemma FreeKept(s: State, s': State, c: Task)
    requires FreeOk(s) && OwnSlotOnly(s, s', c) && ClientsOk(s) && PermitInv(s)
    requires forall i | i in s'.empty && HoldsSlot(s, c, i) && i in s'.slots :: Places(MarksOf(s', i), s'.slots[i].isWoken) == 0
    ensures FreeOk(s')
  {
    hide History, OwnerOk, Places;
    forall i | i in s'.empty && i in s'.slots ensures Places(MarksOf(s', i), s'.slots[i].isWoken) == 0 {
      if !HoldsSlot(s, c, i) {
        assert MarksOf(s', i) == MarksOf(s, i);
      }
    }
  }

  lemma ClientStepOwn(s: State, s': State, c: Task)
    requires OwnInv(s) && PermitInv(s') && Alone(s')
    requires OwnSlotOnly(s, s', c) && OwnEventOnly(s, s', c) && ClientOk(s', c) && PastsOk(s')
    requires
      || s'.clients[c].pc.HasSlot() == s.clients[c].pc.HasSlot() == false
      || (s.clients[c].pc.HasSlot() && (s'.clients[c].pc.HasSlot() ==> s'.clients[c].pc.idx == s.clients[c].pc.idx))
      || (s'.clients[c].pc.HasSlot() && s'.clients[c].pc.idx in s.empty)
    requires s.empty <= s'.empty || (forall d | d in s.clients && d != c :: !s.clients[d].pc.Claiming?)
    requires forall i | i in s'.empty && HoldsSlot(s, c, i) && i in s'.slots :: Places(MarksOf(s', i), s'.slots[i].isWoken) == 0
    ensures OwnInv(s')
  {
    hide History, OwnerOk, Places, IdlerOk, PermitInv, Alone, PastsOk;
    OthersOk(s, s', c);
    FreeKept(s, s', c);
    forall d, e, i | HoldsSlot(s', d, i) && HoldsSlot(s', e, i) ensures d == e {
      if d != c {
        assert HoldsSlot(s, d, i);
        assert ClientOk(s, d);
      }
      if e != c {
        assert HoldsSlot(s, e, i);
        assert ClientOk(s, e);
      }
    }
  }

  lemma PastsKept(s: State, s': State, c: Task)
    requires PastsOk(s) && c in s.clients && s'.log == s.log
    requires c in s'.clients && s'.clients == s.clients[c := s'.clients[c]]
    requires s'.clients[c].serial == s.clients[c].serial
    ensures PastsOk(s') && OwnEventOnly(s, s', c)
  {
    hide History, Canonical;
  }

  lemma PastsLogged(s: State, s': State, c: Task, e: Event)
    requires PastsOk(s) && c in s.clients && s'.log == s.log + [e] && e.id == CallId(c, s.clients[c].serial)
    requires Canonical(History(s.log, e.id) + [e])
    requires c in s'.clients && s'.clients == s.clients[c := s'.clients[c]]
    requires s'.clients[c].serial == s.clients[c].serial
    ensures PastsOk(s') && OwnEventOnly(s, s', c)
    ensures History(s'.log, e.id) == History(s.log, e.id) + [e]
  {
    hide History, Canonical;
    HistoryAppend(s.log, e);
    forall id: CallId ensures PastOk(s'.clients, id, History(s'.log, id)) {
      assert PastOk(s.clients, id, History(s.log, id));
    }
  }

  // ---------- the steps of a client ----------

  predicate Approaches(t: Step) {
    t.Call? || t.AcquirePermit? || t.Snapshot?
  }

  predicate Claims(t: Step) {
    t.SnapshotAndClaim? || t.Claim?
  }

  predicate WorksOnSlot(t: Step) {
    t.FillMsg? || t.SetOwner? || t.Disown? || t.Wake? || t.Check? || t.Read?
  }

  // The part of the invariant a client's step is about.
  ghost predicate Mine(s: State, c: Task) {
    && c in s.clients && ClientOk(s, c) && FreeOk(s) && s.slots.Keys == s.all && s.empty <= s.all && s.pend <= s.all
  }

  lemma InvMine(s: State, c: Task)
    requires OwnInv(s) && c in s.clients
    ensures Mine(s, c)
  {
    hide ClientOk, Exclusive, Alone, FreeOk, IsrOk, PastsOk;
  }

  // What ClientStepOwn asks of a silent step.
  ghost predicate SilentOk(s: State, s': State, c: Task) {
    && OwnSlotOnly(s, s', c) && ClientOk(s', c)
    && s'.log == s.log && s'.clients[c].serial == s.clients[c].serial
    && (|| s'.clients[c].pc.HasSlot() == s.clients[c].pc.HasSlot() == false
        || (s.clients[c].pc.HasSlot() && s'.clients[c].pc.HasSlot() && s'.clients[c].pc.idx == s.clients[c].pc.idx)
        || (s'.clients[c].pc.HasSlot() && s'.clients[c].pc.idx in s.empty))
    && (s.empty <= s'.empty || s.clients[c].pc.Holds())
    && (s'.empty <= s.empty && (s.clients[c].pc.HasSlot() ==> s.clients[c].pc.idx !in s.empty))
  }

  lemma ApproachMine(s: State, t: Step)
    requires Approaches(t) && Enabled(s, t) && Mine(s, t.c)
    requires t.Snapshot? ==> s.empty != {}
    ensures SilentOk(s, Apply(s, t), t.c)
  {
    hide History, Places, OwnerOk, FreeOk;
  }

  lemma ClaimMine(s: State, t: Step)
    requires Claims(t) && Enabled(s, t) && Mine(s, t.c)
    ensures SilentOk(s, Apply(s, t), t.c)
  {
    hide History;
    var s' := Apply(s, t);
    assert s' == DoClaim(s, t.c, t.idx);
    assert MarksOf(s', t.idx) == MarksOf(s, t.idx);
  }

  lemma FillMine(s: State, c: Task)
    requires Enabled(s, FillMsg(c)) && Mine(s, c)
    ensures SilentOk(s, DoFillMsg(s, c), c)
  {
    hide History, Canonical, FreeOk, Places;
    assert MarksOf(DoFillMsg(s, c), s.clients[c].pc.idx) == MarksOf(s, s.clients[c].pc.idx);
  }

  lemma SetOwnerMine(s: State, c: Task)
    requires Enabled(s, SetOwner(c)) && Mine(s, c)
    ensures SilentOk(s, DoSetOwner(s, c), c)
  {
    hide History, Canonical, FreeOk, Places;
    assert MarksOf(DoSetOwner(s, c), s.clients[c].pc.idx) == MarksOf(s, s.clients[c].pc.idx);
  }

  lemma DisownMine(s: State, c: Task)
    requires Enabled(s, Disown(c)) && Mine(s, c)
    ensures SilentOk(s, DoDisown(s, c), c)
  {
    hide History, Canonical, FreeOk, Places;
    assert MarksOf(DoDisown(s, c), s.clients[c].pc.idx) == MarksOf(s, s.clients[c].pc.idx);
  }

  lemma WakeMine(s: State, c: Task)
    requires Enabled(s, Wake(c)) && Mine(s, c)
    ensures SilentOk(s, DoWake(s, c), c)
  {
    hide History, Canonical, FreeOk, Places;
    assert MarksOf(DoWake(s, c), s.clients[c].pc.idx) == MarksOf(s, s.clients[c].pc.idx);
  }

  lemma CheckMine(s: State, c: Task)
    requires Enabled(s, Check(c)) && Mine(s, c)
    ensures SilentOk(s, DoCheck(s, c), c)
  {
    hide History, Canonical, FreeOk;
    var i := s.clients[c].pc.idx;
    assert MarksOf(DoCheck(s, c), i) == MarksOf(s, i);
    if !s.slots[i].isWoken {
      hide Places;
      assert DoCheck(s, c) == SetPc(s, c, Waiting(i));
    }
  }

  lemma ReadMine(s: State, c: Task)
    requires Enabled(s, Read(c)) && Mine(s, c)
    ensures SilentOk(s, DoRead(s, c), c)
  {
    hide History, Canonical, FreeOk, Places;
    assert MarksOf(DoRead(s, c), s.clients[c].pc.idx) == MarksOf(s, s.clients[c].pc.idx);
  }

  lemma FlagMine(s: State, c: Task)
    requires Mine(s, c)
    ensures SilentOk(s, SetClient(s, c, s.clients[c].(threadFlag := true)), c)
  {
    hide History, Canonical, FreeOk, Places;
    var s' := SetClient(s, c, s.clients[c].(threadFlag := true));
    if s.clients[c].pc.HasSlot() {
      assert MarksOf(s', s.clients[c].pc.idx) == MarksOf(s, s.clients[c].pc.idx);
    }
  }

  lemma NobodyElseClaims(s: State, c: Task)
    requires Alone(s) && c in s.clients && s.clients[c].pc.Holds()
    ensures forall d | d in s.clients && d != c :: !s.clients[d].pc.Claiming?
  {
    assert c in Holders(s);
    forall d | d in s.clients && d != c ensures !s.clients[d].pc.Claiming? {
      assert s.clients[d].pc.Claiming? ==> d in Holders(s);
    }
  }

  lemma SilentOwn(s: State, s': State, c: Task)
    requires OwnInv(s) && PermitInv(s') && Alone(s') && SilentOk(s, s', c)
    ensures OwnInv(s')
  {
    hide PermitInv, Exclusive, ClientOk, FreeOk, IsrOk, InRange, PastsOk, Places;
    PastsKept(s, s', c);
    if s.clients[c].pc.Holds() {
      NobodyElseClaims(s, c);
    }
    hide Alone;
    ClientStepOwn(s, s', c);
  }

  lemma SilentStepOwn(s: State, t: Step)
    requires OwnInv(s) && NoRace(s) && Enabled(s, t)
    requires Approaches(t) || Claims(t) || WorksOnSlot(t) || t.OtherFlag?
    ensures OwnInv(Apply(s, t))
  {
    hide PermitInv, Alone, Exclusive, ClientsOk, FreeOk, IsrOk, InRange, PastsOk, SilentOk, Mine;
    StepAlone(s, t);
    InvMine(s, t.c);
    if t.Snapshot? {
      PermitFindsSlot(s, t.c);
    }
    if Approaches(t) {
      ApproachMine(s, t);
    } else if Claims(t) {
      ClaimMine(s, t);
    } else {
      match t
      case FillMsg(c) => FillMine(s, c);
      case SetOwner(c) => SetOwnerMine(s, c);
      case Disown(c) => DisownMine(s, c);
      case Wake(c) => WakeMine(s, c);
      case Check(c) => CheckMine(s, c);
      case Read(c) => ReadMine(s, c);
      case OtherFlag(c) => FlagMine(s, c);
    }
    SilentOwn(s, Apply(s, t), t.c);
  }

  lemma PendMine(s: State, c: Task)
    requires Enabled(s, PendSlot(c)) && Mine(s, c)
    ensures
      var h := History(s.log, CallId(c, s.clients[c].serial));
      var e := Pend(CallId(c, s.clients[c].serial), s.clients[c].pc.idx, s.slots[s.clients[c].pc.idx].msg);
      && DoPend(s, c).log == s.log + [e] && Canonical(h + [e])
      && OwnSlotOnly(s, DoPend(s, c), c) && ClientOk(DoPend(s, c), c)
      && s.clients[c].pc.idx !in s.empty
  {
    hide History, FreeOk;
    var e := Pend(CallId(c, s.clients[c].serial), s.clients[c].pc.idx, s.slots[s.clients[c].pc.idx].msg);
    HistoryAppend(s.log, e);
  }

  lemma PendOwn(s: State, c: Task)
    requires OwnInv(s) && NoRace(s) && Enabled(s, PendSlot(c))
    ensures OwnInv(DoPend(s, c))
  {
    hide PermitInv, Alone, Exclusive, ClientsOk, FreeOk, IsrOk, InRange, PastsOk, Mine, ClientOk, History, Canonical, Places;
    StepAlone(s, PendSlot(c));
    InvMine(s, c);
    PendMine(s, c);
    PastsLogged(s, DoPend(s, c), c, DoPend(s, c).log[|s.log|]);
    ClientStepOwn(s, DoPend(s, c), c);
  }

  lemma FreeMine(s: State, c: Task)
    requires Enabled(s, Free(c)) && Mine(s, c)
    ensures
      var h := History(s.log, CallId(c, s.clients[c].serial));
      var e := Return(CallId(c, s.clients[c].serial), s.clients[c].replyBuf);
      var i := s.clients[c].pc.idx;
      var s' := DoFree(s, c);
      && s'.log == s.log + [e] && Canonical(h + [e])
      && OwnSlotOnly(s, s', c) && ClientOk(s', c)
      && i in s'.slots && Places(MarksOf(s', i), s'.slots[i].isWoken) == 0
  {
    hide History, FreeOk;
    var e := Return(CallId(c, s.clients[c].serial), s.clients[c].replyBuf);
    HistoryAppend(s.log, e);
    assert MarksOf(DoFree(s, c), s.clients[c].pc.idx) == MarksOf(s, s.clients[c].pc.idx);
  }

  lemma FreeOwn(s: State, c: Task)
    requires OwnInv(s) && NoRace(s) && Enabled(s, Free(c))
    ensures OwnInv(DoFree(s, c))
  {
    hide PermitInv, Alone, Exclusive, ClientsOk, FreeOk, IsrOk, InRange, PastsOk, Mine, ClientOk, History, Canonical, Places;
    StepAlone(s, Free(c));
    InvMine(s, c);
    FreeMine(s, c);
    PastsLogged(s, DoFree(s, c), c, DoFree(s, c).log[|s.log|]);
    ClientStepOwn(s, DoFree(s, c), c);
  }

  // The call ends: its serial becomes a finished one.
  lemma ReleaseMine(s: State, c: Task)
    requires Enabled(s, ReleasePermit(c)) && Mine(s, c) && PastsOk(s)
    ensures OwnSlotOnly(s, DoRelease(s, c), c) && ClientOk(DoRelease(s, c), c)
    ensures PastsOk(DoRelease(s, c)) && OwnEventOnly(s, DoRelease(s, c), c)
  {
    hide History, FreeOk, Canonical;
    var s' := DoRelease(s, c);
    var k := s.clients[c];
    assert PastOk(s.clients, CallId(c, k.serial + 1), History(s.log, CallId(c, k.serial + 1)));
    forall id: CallId ensures PastOk(s'.clients, id, History(s'.log, id)) {
      assert PastOk(s.clients, id, History(s.log, id));
    }
  }

  lemma ReleaseOwn(s: State, c: Task)
    requires OwnInv(s) && NoRace(s) && Enabled(s, ReleasePermit(c))
    ensures OwnInv(Apply(s, ReleasePermit(c)))
  {
    hide PermitInv, Alone, Exclusive, ClientsOk, FreeOk, IsrOk, InRange, PastsOk, Mine, ClientOk, History, Canonical, Places;
    StepAlone(s, ReleasePermit(c));
    InvMine(s, c);
    ReleaseMine(s, c);
    ClientStepOwn(s, DoRelease(s, c), c);
  }

  // ---------- the steps of the secure side and of the interrupt handler ----------

  // A slot that is marked anywhere is awaited by exactly one task.
  lemma Awaited(s: State, i: SlotIdx) returns (c: Task)
    requires PermitInv(s) && ClientsOk(s) && FreeOk(s) && InRange(s) && i in s.all
    requires Places(MarksOf(s, i), s.slots[i].isWoken) > 0
    ensures HoldsSlot(s, c, i) && s.clients[c].pc.Awaits() && ClientOk(s, c)
  {
    hide History, Canonical, Places;
    assert i !in s.empty;
    c :| HoldsSlot(s, c, i);
    assert ClientOk(s, c);
  }

  // Steps on the marks of slot i, awaited by c: everybody else is untouched.
  lemma MarkStepOwn(s: State, s': State, c: Task, i: SlotIdx)
    requires OwnInv(s) && HoldsSlot(s, c, i) && PermitInv(s') && Alone(s')
    requires s'.clients.Keys == s.clients.Keys && s'.empty == s.empty && s'.all == s.all && s'.slots.Keys == s.slots.Keys
    requires forall d | d in s.clients && d != c ::
      s'.clients[d] == s.clients[d] || s'.clients[d] == s.clients[d].(threadFlag := true)
    requires s'.clients[c] == s.clients[c] || s'.clients[c] == s.clients[c].(threadFlag := true)
    requires forall j | j in s.slots && j != i :: s'.slots[j] == s.slots[j] && MarksOf(s', j) == MarksOf(s, j)
    requires OwnEventOnly(s, s', c) && ClientOk(s', c) && IsrOk(s') && InRange(s') && PastsOk(s')
    ensures OwnInv(s')
  {
    hide History, PermitInv, Alone, IsrOk, InRange, PastsOk, Places, Canonical;
    forall d, e, j | HoldsSlot(s', d, j) && HoldsSlot(s', e, j) ensures d == e {
      assert HoldsSlot(s, d, j) && HoldsSlot(s, e, j);
    }
    forall d | d in s'.clients ensures ClientOk(s', d) {
      if d != c {
        assert ClientOk(s, d);
        assert s.clients[d].pc.HasSlot() ==> HoldsSlot(s, d, s.clients[d].pc.idx);
      }
    }
    assert ClientOk(s, c);
    assert i !in s.empty;
  }

  // The part of the invariant a step on slot i's marks is about.
  ghost predicate Marked(s: State, c: Task, i: SlotIdx) {
    && HoldsSlot(s, c, i) && s.clients[c].pc.Awaits() && ClientOk(s, c) && i in s.slots
    && IsrOk(s) && InRange(s) && s.slots.Keys == s.all
  }

  lemma InvMarked(s: State, i: SlotIdx) returns (c: Task)
    requires OwnInv(s) && i in s.slots && Places(MarksOf(s, i), s.slots[i].isWoken) > 0
    ensures Marked(s, c, i)
  {
    hide ClientOk, Exclusive, Alone, PastsOk, Places;
    c := Awaited(s, i);
  }

  // What MarkStepOwn asks of a step on slot i.
  ghost predicate MarkOk(s: State, s': State, c: Task, i: SlotIdx) {
    && s'.clients == s.clients && s'.empty == s.empty && s'.all == s.all && s'.slots.Keys == s.slots.Keys
    && (forall j | j in s.slots && j != i :: s'.slots[j] == s.slots[j] && MarksOf(s', j) == MarksOf(s, j))
    && c in s'.clients && ClientOk(s', c) && IsrOk(s') && InRange(s')
  }

  // At most one event is logged, the next one of the call under way.
  ghost predicate MarkLogged(s: State, s': State, c: Task)
    requires c in s.clients
  {
    s'.log == s.log || (|s'.log| == |s.log| + 1 && s'.log == s.log + [s'.log[|s.log|]]
      && s'.log[|s.log|].id == CallId(c, s.clients[c].serial)
      && Canonical(History(s.log, s'.log[|s.log|].id) + [s'.log[|s.log|]]))
  }

  ghost predicate MarkDone(s: State, s': State, c: Task, i: SlotIdx) {
    c in s.clients && MarkOk(s, s', c, i) && MarkLogged(s, s', c)
  }

  lemma TakeMark(s: State, c: Task, i: SlotIdx)
    requires Enabled(s, SecureTake(i)) && Marked(s, c, i)
    ensures MarkDone(s, DoSecureTake(s, i), c, i)
  {
    hide History;
    HistoryAppend(s.log, Take(s.slots[i].stamp, i, s.slots[i].msg));
  }

  lemma AnswerMark(s: State, c: Task, i: SlotIdx, v: int)
    requires Enabled(s, SecureAnswer(i, v)) && Marked(s, c, i)
    ensures MarkDone(s, DoSecureAnswer(s, i, v), c, i)
  {
    hide History;
    HistoryAppend(s.log, Answer(s.slots[i].stamp, i, v));
  }

  lemma ReplyMark(s: State, c: Task, i: SlotIdx)
    requires Enabled(s, SecureReply(i)) && Marked(s, c, i)
    ensures MarkDone(s, DoSecureReply(s, i), c, i)
  {
    hide History, Canonical;
  }

  lemma FlagMark(s: State, c: Task, i: SlotIdx)
    requires Enabled(s, IsrFlag(i)) && Marked(s, c, i)
    ensures MarkDone(s, DoIsrFlag(s, i), c, i)
  {
    hide History, Canonical;
  }

  lemma MarkOwn(s: State, s': State, c: Task, i: SlotIdx)
    requires OwnInv(s) && PermitInv(s') && Alone(s') && HoldsSlot(s, c, i) && MarkDone(s, s', c, i)
    ensures OwnInv(s')
  {
    hide PermitInv, Alone, Exclusive, ClientOk, FreeOk, IsrOk, InRange, PastsOk, Places, History, Canonical;
    if s'.log == s.log {
      PastsKept(s, s', c);
    } else {
      PastsLogged(s, s', c, s'.log[|s.log|]);
    }
    MarkStepOwn(s, s', c, i);
  }

  lemma MarkByStep(s: State, t: Step, c: Task)
    requires Enabled(s, t) && (t.SecureTake? || t.SecureAnswer? || t.SecureReply? || t.IsrFlag?)
    requires Marked(s, c, t.idx)
    ensures MarkDone(s, Apply(s, t), c, t.idx)
  {
    hide Marked, MarkDone, DoSecureTake, DoSecureAnswer, DoSecureReply, DoIsrFlag;
    match t {
      case SecureTake(i) => TakeMark(s, c, i);
      case SecureAnswer(i, v) => AnswerMark(s, c, i, v);
      case SecureReply(i) => ReplyMark(s, c, i);
      case IsrFlag(i) => FlagMark(s, c, i);
    }
  }

  lemma MarkPlaces(s: State, t: Step) returns (i: SlotIdx)
    requires InRange(s) && s.slots.Keys == s.all && IsrOk(s) && Enabled(s, t)
    requires t.SecureTake? || t.SecureAnswer? || t.SecureReply? || t.IsrFlag?
    ensures i == t.idx && i in s.slots && Places(MarksOf(s, i), s.slots[i].isWoken) > 0
  {
    i := t.idx;
  }

  lemma MarkingStepOwn(s: State, t: Step)
    requires OwnInv(s) && NoRace(s) && Enabled(s, t)
    requires t.SecureTake? || t.SecureAnswer? || t.SecureReply? || t.IsrFlag?
    ensures OwnInv(Apply(s, t))
  {
    hide Alone, Exclusive, ClientsOk, FreeOk, PastsOk, Marked, MarkDone, Places, Apply, HoldsSlot;
    StepAlone(s, t);
    var i := MarkPlaces(s, t);
    hide PermitInv, IsrOk, InRange, Enabled;
    var c := InvMarked(s, i);
    MarkByStep(s, t, c);
    MarkedHolds(s, c, i);
    MarkOwn(s, Apply(s, t), c, i);
  }

  lemma MarkedHolds(s: State, c: Task, i: SlotIdx)
    requires Marked(s, c, i)
    ensures HoldsSlot(s, c, i)
  {
  }

  // The snapshot turns every replied slot into an undelivered one.
  lemma EnterOwn(s: State)
    requires OwnInv(s) && Enabled(s, IsrEnter) && PermitInv(DoIsrEnter(s)) && Alone(DoIsrEnter(s))
    ensures OwnInv(DoIsrEnter(s))
  {
    hide History, PermitInv, Alone, Exclusive, Canonical, ClientOk, PastOk;
    var s' := DoIsrEnter(s);
    forall c | c in s'.clients ensures ClientOk(s', c) {
      EnterClient(s, c);
    }
    assert Exclusive(s') by { ExclusiveKept(s, s'); }
    assert PastsOk(s') by { PastsEnter(s); }
  }

  lemma EnterClient(s: State, c: Task)
    requires Enabled(s, IsrEnter) && IsrOk(s) && c in s.clients && ClientOk(s, c)
    ensures ClientOk(DoIsrEnter(s), c)
  {
    hide History, Canonical;
  }

  lemma PastsEnter(s: State)
    requires PastsOk(s) && Enabled(s, IsrEnter)
    ensures PastsOk(DoIsrEnter(s))
  {
    hide History, Canonical;
  }

  lemma ExclusiveKept(s: State, s': State)
    requires Exclusive(s) && s'.clients.Keys == s.clients.Keys
    requires forall c | c in s.clients :: s'.clients[c].pc == s.clients[c].pc
    ensures Exclusive(s')
  {
    forall c, d, i | HoldsSlot(s', c, i) && HoldsSlot(s', d, i) ensures c == d {
      assert HoldsSlot(s, c, i) && HoldsSlot(s, d, i);
    }
  }

  lemma WakeClient(s: State, c: Task)
    requires Enabled(s, IsrWake) && c in s.clients && ClientOk(s, c)
    ensures ClientOk(DoIsrWake(s), c)
  {
    hide History, Canonical;
  }

  // The owner recorded in the slot is woken, whoever owns the slot by now.
  lemma WakeOwn(s: State)
    requires Enabled(s, IsrWake) && PermitInv(DoIsrWake(s)) && Alone(DoIsrWake(s)) && OwnInv(s)
    ensures OwnInv(DoIsrWake(s))
  {
    hide History, PermitInv, Alone, Exclusive, Canonical, ClientOk, PastOk;
    var s' := DoIsrWake(s);
    forall c | c in s'.clients ensures ClientOk(s', c) {
      WakeClient(s, c);
    }
    assert Exclusive(s') by { ExclusiveKept(s, s'); }
    assert PastsOk(s') by { PastsWake(s); }
  }

  lemma PastsWake(s: State)
    requires PastsOk(s) && Enabled(s, IsrWake)
    ensures PastsOk(DoIsrWake(s))
  {
    hide History, Canonical;
  }

  lemma StepOwn(s: State, t: Step)
    requires OwnInv(s) && NoRace(s) && Enabled(s, t)
    ensures OwnInv(Apply(s, t))
  {
    hide OwnInv, NoRace;
    match t
    case PendSlot(c) => PendOwn(s, c);
    case Free(c) => FreeOwn(s, c);
    case ReleasePermit(c) => ReleaseOwn(s, c);
    case SecureTake(_) => MarkingStepOwn(s, t);
    case SecureAnswer(_, _) => MarkingStepOwn(s, t);
    case SecureReply(_) => MarkingStepOwn(s, t);
    case IsrFlag(_) => MarkingStepOwn(s, t);
    case IsrEnter => InvAlone(s, t); EnterOwn(s);
    case IsrWake => InvAlone(s, t); WakeOwn(s);
    case _ => SilentStepOwn(s, t);
  }

  lemma InvAlone(s: State, t: Step)
    requires OwnInv(s) && NoRace(s) && Enabled(s, t)
    ensures PermitInv(Apply(s, t)) && Alone(Apply(s, t))
  {
    hide PermitInv, Alone, Exclusive, ClientsOk, FreeOk, IsrOk, InRange, PastsOk;
    StepAlone(s, t);
  }
}
