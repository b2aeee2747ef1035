/** The inductive invariant of the mailbox-thread build, and its preservation by every step. */
module ThreadBuildInv {
  import opened Histories
  import opened MailboxTypes
  import opened Wrappers
  import opened ThreadBuild

  // ---------- the history of one request ----------

  // h is a prefix of accept, pend, take, answer, deliver, return: each at most once, in this order,
  // with one message, one slot and one value throughout.
  ghost predicate Canonical(h: seq<Event>) {
    && |h| <= 6
    && (|h| > 0 ==> h[0].Accept?)
    && (|h| > 1 ==> h[1].Pend? && h[1].msg == h[0].msg)
    && (|h| > 2 ==> h[2].Take? && h[2].msg == h[0].msg && h[2].slot == h[1].slot)
    && (|h| > 3 ==> h[3].Answer? && h[3].slot == h[1].slot)
    && (|h| > 4 ==> h[4].Deliver? && h[4].value == h[3].value)
    && (|h| > 5 ==> h[5].Return? && h[5].value == h[3].value)
  }

  // ---------- the invariant ----------

  function B(b: bool): nat { if b then 1 else 0 }

  ghost predicate Filling(s: State, i: SlotIdx) {
    || s.thread == FillingMsg(i)
    || s.thread == FillingReply(i)
    || s.thread == Pending(i)
  }

  ghost predicate Delivering(s: State, i: SlotIdx) {
    i in s.isr.remaining || i in s.isr.complete
  }

  function Count(a: bool, b: bool, c: bool, d: bool, e: bool, f: bool): nat {
    B(a) + B(b) + B(c) + B(d) + B(e) + B(f)
  }

  // The number of phases slot i is in: empty, being filled, pending, with the secure side, replied,
  // being delivered.
  ghost function PhaseCount(s: State, i: SlotIdx): nat {
    Count(i in s.mbox.empty, Filling(s, i), i in s.mbox.pend, i in s.secure, i in s.mbox.replied, Delivering(s, i))
  }

  ghost predicate Shape(s: State) {
    && s.all != {}
    && s.mbox.slots.Keys == s.all
    && s.mbox.empty <= s.all && s.mbox.pend <= s.all && s.mbox.replied <= s.all
    && s.secure.Keys <= s.all
    && (forall i :: Filling(s, i) ==> i in s.all)
    && s.isr.snapshot <= s.all
    && s.isr.snapshot == s.isr.remaining + s.isr.complete
    && s.isr.remaining !! s.isr.complete
    && forall i | i in s.all :: PhaseCount(s, i) == 1
  }

  ghost predicate IsrOk(s: State) {
    match s.isr.pc
    case Quiet => s.isr.snapshot == {} && s.isr.remaining == {} && s.isr.complete == {}
    case Writing => s.isr.remaining != {}
    case Flagging(i) => i in s.isr.remaining && IsLowest(i, s.isr.remaining)
    case Waking(i) => i in s.isr.remaining && IsLowest(i, s.isr.remaining)
    case Releasing => s.isr.remaining == {} && s.isr.complete != {}
    case CheckingFull => s.isr.snapshot == {} && s.isr.remaining == {} && s.isr.complete == {}
  }

  ghost predicate ThreadOk(s: State) {
    && (s.req.Some? <==> s.thread != Receiving)
    && (s.mbox.isFull <==> s.thread == Sleeping || s.thread == ClearingFull)
    && (s.thread.Claiming? ==> s.thread.status != {} && s.thread.status <= s.mbox.empty)
  }

  // k is still inside the call numbered serial, which was accepted and not yet flagged as answered.
  ghost predicate Outstanding(k: Client, serial: nat) {
    (k.pc == Checking || k.pc == Waiting) && k.serial == serial && !k.wokenFlag
  }

  ghost predicate SlotNames(k: Slot, a: Addr) {
    k.reply == Some(a) && k.wokenFlag == Some(a) && k.owner == Some(a.task)
  }

  // A request not yet pended: every address in it points into the outstanding call of its owner k.
  ghost predicate RequestOk(r: Request, k: Client, h: seq<Event>) {
    && r.paramsPtr == r.reply && r.wokenFlag == r.reply && r.owner == r.reply.task
    && Outstanding(k, r.reply.serial)
    && r.callType == k.msg.callType && r.clientId == k.msg.clientId
    && |h| == 1
  }

  // What the mailbox thread has written so far into the slot it is filling.
  ghost predicate FilledOk(t: ThreadPc, r: Request, slot: Slot, k: Client) {
    && (t.FillingReply? || t.Pending? ==> slot.msg == k.msg)
    && (t.Pending? ==> SlotNames(slot, r.reply))
  }

  ghost predicate KnownRequest(s: State, r: Request) {
    r.reply.task in s.clients && RequestOk(r, s.clients[r.reply.task], History(s.log, r.reply))
  }

  ghost predicate QueueOk(s: State) {
    && (forall k | 0 <= k < |s.queue| :: KnownRequest(s, s.queue[k]))
    && (forall j, k | 0 <= j < k < |s.queue| :: s.queue[j].reply != s.queue[k].reply)
  }

  ghost predicate HeldOk(s: State) {
    s.req.Some? ==>
      var r := s.req.value;
      && KnownRequest(s, r)
      && (forall k | 0 <= k < |s.queue| :: s.queue[k].reply != r.reply)
      && (forall i | Filling(s, i) && i in s.mbox.slots ::
            FilledOk(s.thread, r, s.mbox.slots[i], s.clients[r.reply.task]))
  }

  // How far the request in slot i has got.
  ghost function Stage(s: State, i: SlotIdx): nat {
    if i in s.mbox.pend then 2
    else if i in s.secure && s.secure[i] == Handling then 3
    else if s.isr.pc == Flagging(i) then 5
    else 4
  }

  // A slot that holds the request of its owner k, with history h, stage events long.
  ghost predicate SlotOk(slot: Slot, i: SlotIdx, stage: nat, k: Client, h: seq<Event>) {
    && slot.reply.Some? && Outstanding(k, slot.reply.value.serial)
    && |h| == stage && 2 <= stage && Canonical(h) && h[1].slot == i && h[0].msg == slot.msg
    && (stage > 3 ==> h[3].value == slot.returnVal)
    && (stage > 4 ==> k.replyCell == slot.returnVal)
  }

  ghost predicate InFlight(s: State, i: SlotIdx) {
    i in s.mbox.pend || i in s.secure || i in s.mbox.replied || i in s.isr.remaining
  }

  ghost predicate KnownSlot(s: State, i: SlotIdx)
    requires i in s.mbox.slots
  {
    var slot := s.mbox.slots[i];
    && slot.reply.Some? && SlotNames(slot, slot.reply.value)
    && slot.reply.value.task in s.clients
    && (s.isr.pc == Waking(i) ||
        SlotOk(slot, i, Stage(s, i), s.clients[slot.reply.value.task], History(s.log, slot.reply.value)))
  }

  ghost predicate SlotsOk(s: State) {
    forall i | i in s.mbox.slots && InFlight(s, i) :: KnownSlot(s, i)
  }

  // The interrupt handler is about to wake task c.
  ghost predicate BeingWoken(s: State, c: Task) {
    s.isr.pc.Waking? && s.isr.pc.idx in s.mbox.slots && s.mbox.slots[s.isr.pc.idx].owner == Some(c)
  }

  ghost predicate ClientOk(k: Client, h: seq<Event>, beingWoken: bool) {
    match k.pc
    case Idle => h == []
    case Sending => h == [] && !k.wokenFlag
    case _ =>
      && 1 <= |h| <= 5 && Canonical(h) && h[0].msg == k.msg
      && (k.wokenFlag ==> |h| == 5 && k.replyCell == h[4].value)
      && (k.pc == Waiting && k.wokenFlag && !k.threadFlag ==> beingWoken)
  }

  ghost predicate ClientsOk(s: State) {
    forall c | c in s.clients ::
      ClientOk(s.clients[c], History(s.log, CallId(c, s.clients[c].serial)), BeingWoken(s, c))
  }

  // Finished calls have their whole history, calls not yet begun have none.
  ghost predicate PastOk(clients: map<Task, Client>, id: Addr, h: seq<Event>) {
    && Canonical(h)
    && (id.task in clients && id.serial < clients[id.task].serial ==> |h| == 6)
    && (id.task !in clients || id.serial > clients[id.task].serial ==> h == [])
  }

  ghost predicate HistoriesOk(s: State) {
    forall id: Addr {:trigger History(s.log, id)} :: PastOk(s.clients, id, History(s.log, id))
  }

  ghost predicate WindowOk(s: State) {
    && (s.missed && (s.thread == MarkingFull || s.thread == Sleeping) ==> s.mbox.empty != {})
    && ((s.thread == MarkingFull || s.thread == Sleeping) && s.mbox.empty != {} && !s.missed ==>
        s.isr.pc == CheckingFull || (s.thread == Sleeping && s.threadFlag))
  }

  ghost predicate Inv(s: State) {
    && Shape(s) && IsrOk(s) && ThreadOk(s) && QueueOk(s) && HeldOk(s) && SlotsOk(s)
    && ClientsOk(s) && HistoriesOk(s) && WindowOk(s)
    && !s.wild
  }

  lemma InitInv(s: State)
    requires Init(s)
    ensures Inv(s)
  {
  }

  // ---------- which slots are in which phase ----------

  // Steps that move no slot between phases keep the shape.
  lemma ShapeFrame(s: State, s': State)
    requires Shape(s) && s'.all == s.all && s'.mbox.slots.Keys == s.mbox.slots.Keys
    requires s'.mbox.empty == s.mbox.empty && s'.mbox.pend == s.mbox.pend && s'.mbox.replied == s.mbox.replied
    requires s'.secure.Keys == s.secure.Keys
    requires s'.isr.(pc := s.isr.pc) == s.isr
    requires forall i :: Filling(s', i) <==> Filling(s, i)
    ensures Shape(s')
  {
    hide Count;
    forall i | i in s.all ensures PhaseCount(s', i) == 1 {
      assert PhaseCount(s, i) == 1;
    }
  }

  lemma ClaimShape(s: State, i: SlotIdx)
    requires Shape(s) && ThreadOk(s) && Enabled(s, ThreadClaim(i))
    ensures Shape(DoThreadClaim(s, i))
  {
    var s' := DoThreadClaim(s, i);
    forall j | j in s.all ensures PhaseCount(s', j) == 1 {
      assert PhaseCount(s, j) == 1;
    }
  }

  lemma PendShape(s: State)
    requires Shape(s) && Enabled(s, ThreadPend)
    ensures Shape(DoThreadPend(s))
  {
    var s' := DoThreadPend(s);
    assert Filling(s, s.thread.idx);
    forall j | j in s.all ensures PhaseCount(s', j) == 1 {
      assert PhaseCount(s, j) == 1;
    }
  }

  lemma TakeShape(s: State, i: SlotIdx)
    requires Shape(s) && Enabled(s, SecureTake(i))
    ensures Shape(DoSecureTake(s, i))
  {
    var s' := DoSecureTake(s, i);
    assert PhaseCount(s, i) == 1;
    forall j | j in s.all ensures PhaseCount(s', j) == 1 {
      assert PhaseCount(s, j) == 1;
    }
  }

  lemma ReplyShape(s: State, i: SlotIdx)
    requires Shape(s) && Enabled(s, SecureReply(i))
    ensures Shape(DoSecureReply(s, i))
  {
    var s' := DoSecureReply(s, i);
    assert s'.secure.Keys == s.secure.Keys - {i};
    forall j | j in s.all ensures PhaseCount(s', j) == 1 {
      assert PhaseCount(s, j) == 1;
    }
  }

  lemma EnterShape(s: State)
    requires Shape(s) && IsrOk(s) && Enabled(s, IsrEnter)
    ensures Shape(DoIsrEnter(s))
  {
    var s' := DoIsrEnter(s);
    forall j | j in s.all ensures PhaseCount(s', j) == 1 {
      assert PhaseCount(s, j) == 1;
    }
  }

  lemma WakeLeaves(s: State)
    requires Shape(s) && IsrOk(s) && Enabled(s, IsrWake)
    ensures !InFlight(DoIsrWake(s), s.isr.pc.idx)
  {
    assert PhaseCount(s, s.isr.pc.idx) == 1;
  }

  lemma WakeMoves(s: State, s': State, i: SlotIdx)
    requires Shape(s) && i in s.isr.remaining
    requires s'.all == s.all && s'.mbox == s.mbox && s'.secure == s.secure && s'.thread == s.thread
    requires s'.isr.snapshot == s.isr.snapshot
    requires s'.isr.remaining == s.isr.remaining - {i} && s'.isr.complete == s.isr.complete + {i}
    ensures Shape(s')
  {
    hide Count;
    forall j | j in s.all ensures PhaseCount(s', j) == 1 {
      assert PhaseCount(s, j) == 1;
      assert Delivering(s', j) == Delivering(s, j);
    }
  }

  lemma WakeShape(s: State)
    requires Shape(s) && IsrOk(s) && Enabled(s, IsrWake)
    ensures Shape(DoIsrWake(s)) && !InFlight(DoIsrWake(s), s.isr.pc.idx)
  {
    hide PhaseCount;
    WakeLeaves(s);
    WakeMoves(s, DoIsrWake(s), s.isr.pc.idx);
  }

  lemma ReleaseShape(s: State)
    requires Shape(s) && IsrOk(s) && Enabled(s, IsrRelease)
    ensures Shape(DoIsrRelease(s))
  {
    var s' := DoIsrRelease(s);
    forall j | j in s.all ensures PhaseCount(s', j) == 1 {
      assert PhaseCount(s, j) == 1;
    }
  }

  // ---------- what a step leaves alone ----------

  ghost predicate OutstandingAt(s: State, id: Addr) {
    id.task in s.clients && Outstanding(s.clients[id.task], id.serial)
  }

  // The outstanding call id sees no difference between s and s'.
  ghost predicate Undisturbed(s: State, s': State, id: Addr)
    requires id.task in s.clients
  {
    && OutstandingAt(s', id)
    && s'.clients[id.task].msg == s.clients[id.task].msg
    && s'.clients[id.task].replyCell == s.clients[id.task].replyCell
    && History(s'.log, id) == History(s.log, id)
  }

  // Every outstanding call but a is undisturbed, and no client disappears.
  ghost predicate OnlyTouches(s: State, s': State, a: Option<Addr>) {
    && s.clients.Keys == s'.clients.Keys
    && forall id: Addr | OutstandingAt(s, id) && Some(id) != a :: Undisturbed(s, s', id)
  }

  lemma QueueFrame(s: State, s': State, a: Option<Addr>)
    requires QueueOk(s) && OnlyTouches(s, s', a)
    requires s'.queue == s.queue || (s.queue != [] && s'.queue == s.queue[1..])
    requires forall k | 0 <= k < |s'.queue| :: Some(s'.queue[k].reply) != a
    ensures QueueOk(s')
  {
    hide History;
    var d := |s.queue| - |s'.queue|;
    forall k | 0 <= k < |s'.queue| ensures KnownRequest(s', s'.queue[k]) {
      assert s'.queue[k] == s.queue[k + d];
      assert KnownRequest(s, s.queue[k + d]);
      assert OutstandingAt(s, s'.queue[k].reply);
    }
  }

  lemma HeldFrame(s: State, s': State, a: Option<Addr>)
    requires HeldOk(s) && OnlyTouches(s, s', a)
    requires s'.queue == s.queue && s'.req == s.req
    requires s.req.Some? ==> Some(s.req.value.reply) != a
    requires forall i | Filling(s', i) && i in s'.mbox.slots && s.req.Some? ::
      FilledOk(s'.thread, s.req.value, s'.mbox.slots[i], s.clients[s.req.value.reply.task])
    ensures HeldOk(s')
  {
    hide History;
    if s.req.Some? {
      assert KnownRequest(s, s.req.value);
      assert OutstandingAt(s, s.req.value.reply);
    }
  }

  // Slot i is in flight in s' as it was in s, and holds the same request.
  ghost predicate SlotKept(s: State, s': State, i: SlotIdx) {
    && i in s.mbox.slots && i in s'.mbox.slots && s'.mbox.slots[i] == s.mbox.slots[i]
    && InFlight(s, i) && Stage(s', i) == Stage(s, i)
    && (s.isr.pc == Waking(i) <==> s'.isr.pc == Waking(i))
  }

  lemma SlotFrame(s: State, s': State, a: Option<Addr>, i: SlotIdx)
    requires SlotsOk(s) && OnlyTouches(s, s', a) && SlotKept(s, s', i)
    requires s.isr.pc == Waking(i) || s.mbox.slots[i].reply != a
    ensures KnownSlot(s', i)
  {
    hide History;
    assert KnownSlot(s, i);
    assert s.isr.pc == Waking(i) || OutstandingAt(s, s.mbox.slots[i].reply.value);
  }

  // Two slots never hold the same request, and no queued request is in a slot.
  lemma SlotRequestIsUnique(s: State, i: SlotIdx)
    requires SlotsOk(s) && QueueOk(s) && HeldOk(s)
    requires i in s.mbox.slots && InFlight(s, i) && s.isr.pc != Waking(i)
    ensures KnownSlot(s, i) && OutstandingAt(s, s.mbox.slots[i].reply.value)
    ensures forall j | j in s.mbox.slots && InFlight(s, j) && s.isr.pc != Waking(j) && j != i ::
      s.mbox.slots[j].reply != s.mbox.slots[i].reply
    ensures forall k | 0 <= k < |s.queue| :: Some(s.queue[k].reply) != s.mbox.slots[i].reply
    ensures s.req.Some? ==> Some(s.req.value.reply) != s.mbox.slots[i].reply
  {
    hide History, Canonical;
    assert KnownSlot(s, i);
    forall j | j in s.mbox.slots && InFlight(s, j) && s.isr.pc != Waking(j) && j != i
      ensures s.mbox.slots[j].reply != s.mbox.slots[i].reply
    {
      assert KnownSlot(s, j);
    }
    forall k | 0 <= k < |s.queue| ensures Some(s.queue[k].reply) != s.mbox.slots[i].reply {
      assert KnownRequest(s, s.queue[k]);
    }
  }

  // ---------- steps that change neither clients nor slots nor the log ----------

  lemma CalmStep(s: State, s': State)
    requires Inv(s) && Shape(s') && IsrOk(s') && ThreadOk(s') && WindowOk(s')
    requires s'.clients == s.clients && s'.log == s.log && s'.mbox.slots == s.mbox.slots
    requires s'.queue == s.queue && s'.req == s.req && s'.wild == s.wild
    requires s'.isr.pc == s.isr.pc || (!s.isr.pc.Flagging? && !s.isr.pc.Waking? && !s'.isr.pc.Flagging? && !s'.isr.pc.Waking?)
    requires forall i | i in s.mbox.slots && InFlight(s', i) :: InFlight(s, i) && Stage(s', i) == Stage(s, i)
    requires s'.thread == s.thread || (!s'.thread.FillingReply? && !s'.thread.Pending?)
    ensures Inv(s')
  {
    hide History, Canonical, Shape, ClientOk, RequestOk;
    forall i | i in s'.mbox.slots && InFlight(s', i) ensures KnownSlot(s', i) {
      assert KnownSlot(s, i);
    }
    forall c | c in s'.clients
      ensures ClientOk(s'.clients[c], History(s'.log, CallId(c, s'.clients[c].serial)), BeingWoken(s', c))
    {
      assert BeingWoken(s', c) == BeingWoken(s, c);
    }
    forall k | 0 <= k < |s'.queue| ensures KnownRequest(s', s'.queue[k]) {
      assert KnownRequest(s, s.queue[k]);
    }
  }

  lemma ThreadWaitInv(s: State, t: Step)
    requires Inv(s) && Enabled(s, t)
    requires t in {ThreadSnapshot, ThreadMarkFull, ThreadWake, ThreadOtherFlag, ThreadClearFull}
    ensures Inv(Apply(s, t))
  {
    hide Shape, History, Canonical, QueueOk, HeldOk, SlotsOk, ClientsOk, HistoriesOk, PhaseCount;
    var s' := Apply(s, t);
    ShapeFrame(s, s');
    CalmStep(s, s');
  }

  lemma ThreadClaimInv(s: State, i: SlotIdx)
    requires Inv(s) && Enabled(s, ThreadClaim(i))
    ensures Inv(DoThreadClaim(s, i))
  {
    hide Shape, History, Canonical, QueueOk, HeldOk, SlotsOk, ClientsOk, HistoriesOk, PhaseCount;
    ClaimShape(s, i);
    CalmStep(s, DoThreadClaim(s, i));
  }

  lemma SecureReplyInv(s: State, i: SlotIdx)
    requires Inv(s) && Enabled(s, SecureReply(i))
    ensures Inv(DoSecureReply(s, i))
  {
    hide Shape, History, Canonical, QueueOk, HeldOk, SlotsOk, ClientsOk, HistoriesOk, PhaseCount;
    ReplyShape(s, i);
    CalmStep(s, DoSecureReply(s, i));
  }

  lemma IsrEnterInv(s: State)
    requires Inv(s) && Enabled(s, IsrEnter)
    ensures Inv(DoIsrEnter(s))
  {
    hide Shape, History, Canonical, QueueOk, HeldOk, SlotsOk, ClientsOk, HistoriesOk, PhaseCount;
    EnterShape(s);
    CalmStep(s, DoIsrEnter(s));
  }

  lemma IsrCheckFullInv(s: State)
    requires Inv(s) && Enabled(s, IsrCheckFull)
    ensures Inv(DoIsrCheckFull(s))
  {
    hide Shape, History, Canonical, QueueOk, HeldOk, SlotsOk, ClientsOk, HistoriesOk, PhaseCount;
    ShapeFrame(s, DoIsrCheckFull(s));
    CalmStep(s, DoIsrCheckFull(s));
  }

  lemma IsrReleaseInv(s: State)
    requires Inv(s) && Enabled(s, IsrRelease)
    ensures Inv(DoIsrRelease(s))
  {
    hide Shape, History, Canonical, QueueOk, HeldOk, SlotsOk, ClientsOk, HistoriesOk, PhaseCount;
    ReleaseShape(s);
    CalmStep(s, DoIsrRelease(s));
  }

  // ---------- steps of one client that leave the log alone ----------

  lemma ClientStep(s: State, c: Task, k: Client)
    requires Inv(s) && c in s.clients && k.serial == s.clients[c].serial
    requires ClientOk(k, History(s.log, CallId(c, k.serial)), BeingWoken(s, c))
    requires Outstanding(s.clients[c], k.serial) ==>
      Outstanding(k, k.serial) && k.msg == s.clients[c].msg && k.replyCell == s.clients[c].replyCell
    ensures Inv(SetClient(s, c, k))
  {
    hide Shape, History, Canonical, ClientOk, PhaseCount, RequestOk, SlotOk, FilledOk;
    var s' := SetClient(s, c, k);
    ShapeFrame(s, s');
    assert OnlyTouches(s, s', None);
    ClientStepRest(s, s');
  }

  lemma ClientStepRest(s: State, s': State)
    requires QueueOk(s) && HeldOk(s) && SlotsOk(s) && OnlyTouches(s, s', None)
    requires s' == s.(clients := s'.clients)
    ensures QueueOk(s') && HeldOk(s') && SlotsOk(s')
  {
    hide History, Canonical;
    QueueFrame(s, s', None);
    HeldFrame(s, s', None);
    forall i | i in s'.mbox.slots && InFlight(s', i) ensures KnownSlot(s', i) {
      SlotFrame(s, s', None, i);
    }
  }

  lemma ClientCallInv(s: State, c: Task, msg: Msg, hasParams: bool, hasReply: bool, oldReply: int)
    requires Inv(s) && Enabled(s, ClientCall(c, msg, hasParams, hasReply, oldReply))
    ensures Inv(DoClientCall(s, c, msg, hasParams, hasReply, oldReply))
  {
    ClientStep(s, c, DoClientCall(s, c, msg, hasParams, hasReply, oldReply).clients[c]);
  }

  lemma ClientWakeInv(s: State, c: Task)
    requires Inv(s) && Enabled(s, ClientWake(c))
    ensures Inv(DoClientWake(s, c))
  {
    ClientStep(s, c, DoClientWake(s, c).clients[c]);
  }

  lemma OtherFlagInv(s: State, c: Task)
    requires Inv(s) && Enabled(s, OtherFlag(c))
    ensures Inv(DoOtherFlag(s, c))
  {
    ClientStep(s, c, DoOtherFlag(s, c).clients[c]);
  }

  // ---------- steps on the request held in one slot ----------

  lemma SlotStepRest(s: State, s': State, i: SlotIdx)
    requires Shape(s) && QueueOk(s) && HeldOk(s) && SlotsOk(s)
    requires i in s.mbox.slots && InFlight(s, i) && s.isr.pc != Waking(i)
    requires OnlyTouches(s, s', s.mbox.slots[i].reply)
    requires s'.queue == s.queue && s'.req == s.req && s'.thread == s.thread
    requires i in s'.mbox.slots && s'.mbox.slots == s.mbox.slots[i := s'.mbox.slots[i]]
    requires forall j | j in s.mbox.slots && InFlight(s', j) && j != i :: SlotKept(s, s', j)
    requires InFlight(s', i) ==> KnownSlot(s', i)
    ensures QueueOk(s') && HeldOk(s') && SlotsOk(s')
  {
    hide History, Canonical, SlotOk, RequestOk;
    var a := s.mbox.slots[i].reply;
    SlotRequestIsUnique(s, i);
    QueueFrame(s, s', a);
    assert PhaseCount(s, i) == 1;
    HeldFrame(s, s', a);
    forall j | j in s'.mbox.slots && InFlight(s', j) ensures KnownSlot(s', j) {
      if j != i {
        SlotFrame(s, s', a, j);
      }
    }
  }

  // Adding the next event of an outstanding call keeps the clients' and the histories' part.
  lemma LogStepRest(s: State, s': State, e: Event, v: int)
    requires ClientsOk(s) && HistoriesOk(s) && OutstandingAt(s, e.id)
    requires s'.log == s.log + [e]
    requires Canonical(History(s.log, e.id) + [e]) && |History(s.log, e.id)| <= 4
    requires s'.clients == s.clients || s'.clients == s.clients[e.id.task := s.clients[e.id.task].(replyCell := v)]
    requires forall c | c in s.clients :: BeingWoken(s, c) ==> BeingWoken(s', c)
    ensures ClientsOk(s') && HistoriesOk(s')
  {
    hide History, BeingWoken;
    HistoryAppend(s.log, e);
    forall c | c in s'.clients
      ensures ClientOk(s'.clients[c], History(s'.log, CallId(c, s'.clients[c].serial)), BeingWoken(s', c))
    {
      assert ClientOk(s.clients[c], History(s.log, CallId(c, s.clients[c].serial)), BeingWoken(s, c));
    }
    forall id: Addr ensures PastOk(s'.clients, id, History(s'.log, id)) {
      assert PastOk(s.clients, id, History(s.log, id));
    }
  }

  lemma LogStepTouches(s: State, s': State, e: Event, v: int)
    requires OutstandingAt(s, e.id) && s'.log == s.log + [e]
    requires s'.clients == s.clients || s'.clients == s.clients[e.id.task := s.clients[e.id.task].(replyCell := v)]
    ensures OnlyTouches(s, s', Some(e.id))
  {
    hide History;
    HistoryAppend(s.log, e);
  }

  lemma SecureTakeSlot(s: State, i: SlotIdx) returns (e: Event)
    requires Shape(s) && IsrOk(s) && SlotsOk(s) && Enabled(s, SecureTake(i))
    ensures InFlight(s, i) && s.isr.pc != Waking(i) && KnownSlot(s, i)
    ensures OutstandingAt(s, e.id) && s.mbox.slots[i].reply == Some(e.id) && |History(s.log, e.id)| <= 4
    ensures Canonical(History(s.log, e.id) + [e])
    ensures DoSecureTake(s, i).log == s.log + [e] && KnownSlot(DoSecureTake(s, i), i)
    ensures DoSecureTake(s, i).wild == s.wild
  {
    hide History;
    assert PhaseCount(s, i) == 1;
    assert KnownSlot(s, i);
    var a := s.mbox.slots[i].reply.value;
    e := Take(a, i, s.mbox.slots[i].msg);
    HistoryAppend(s.log, e);
  }

  lemma SecureTakeInv(s: State, i: SlotIdx)
    requires Inv(s) && Enabled(s, SecureTake(i))
    ensures Inv(DoSecureTake(s, i))
  {
    hide Shape, History, Canonical, SlotOk, ClientOk, RequestOk, PastOk, FilledOk, PhaseCount, QueueOk, HeldOk, ClientsOk, HistoriesOk;
    var s' := DoSecureTake(s, i);
    var e := SecureTakeSlot(s, i);
    TakeShape(s, i);
    LogStepTouches(s, s', e, 0);
    LogStepRest(s, s', e, 0);
    SlotStepRest(s, s', i);
  }

  lemma SecureAnswerSlot(s: State, i: SlotIdx, v: int) returns (e: Event)
    requires Shape(s) && IsrOk(s) && SlotsOk(s) && Enabled(s, SecureAnswer(i, v))
    ensures InFlight(s, i) && s.isr.pc != Waking(i) && KnownSlot(s, i)
    ensures OutstandingAt(s, e.id) && s.mbox.slots[i].reply == Some(e.id) && |History(s.log, e.id)| <= 4
    ensures Canonical(History(s.log, e.id) + [e])
    ensures DoSecureAnswer(s, i, v).log == s.log + [e] && KnownSlot(DoSecureAnswer(s, i, v), i)
    ensures DoSecureAnswer(s, i, v).wild == s.wild
  {
    hide History;
    assert PhaseCount(s, i) == 1;
    assert KnownSlot(s, i);
    var a := s.mbox.slots[i].reply.value;
    e := Answer(a, i, v);
    HistoryAppend(s.log, e);
  }

  lemma SecureAnswerInv(s: State, i: SlotIdx, v: int)
    requires Inv(s) && Enabled(s, SecureAnswer(i, v))
    ensures Inv(DoSecureAnswer(s, i, v))
  {
    hide Shape, History, Canonical, SlotOk, ClientOk, RequestOk, PastOk, FilledOk, PhaseCount, QueueOk, HeldOk, ClientsOk, HistoriesOk;
    var s' := DoSecureAnswer(s, i, v);
    var e := SecureAnswerSlot(s, i, v);
    ShapeFrame(s, s');
    LogStepTouches(s, s', e, 0);
    LogStepRest(s, s', e, 0);
    SlotStepRest(s, s', i);
  }

  lemma IsrWriteSlot(s: State, i: SlotIdx) returns (e: Event)
    requires Shape(s) && IsrOk(s) && SlotsOk(s) && Enabled(s, IsrWrite(i))
    ensures InFlight(s, i) && s.isr.pc != Waking(i) && KnownSlot(s, i)
    ensures OutstandingAt(s, e.id) && s.mbox.slots[i].reply == Some(e.id) && |History(s.log, e.id)| <= 4
    ensures Canonical(History(s.log, e.id) + [e])
    ensures DoIsrWrite(s, i).log == s.log + [e] && KnownSlot(DoIsrWrite(s, i), i)
    ensures DoIsrWrite(s, i).wild == s.wild
  {
    hide History;
    assert PhaseCount(s, i) == 1;
    assert KnownSlot(s, i);
    var a := s.mbox.slots[i].reply.value;
    e := Deliver(a, s.mbox.slots[i].returnVal);
    HistoryAppend(s.log, e);
  }

  lemma IsrWriteInv(s: State, i: SlotIdx)
    requires Inv(s) && Enabled(s, IsrWrite(i))
    ensures Inv(DoIsrWrite(s, i))
  {
    hide Shape, History, Canonical, SlotOk, ClientOk, RequestOk, PastOk, FilledOk, PhaseCount, QueueOk, HeldOk, ClientsOk, HistoriesOk;
    var s' := DoIsrWrite(s, i);
    var e := IsrWriteSlot(s, i);
    ShapeFrame(s, s');
    LogStepTouches(s, s', e, s.mbox.slots[i].returnVal);
    LogStepRest(s, s', e, s.mbox.slots[i].returnVal);
    SlotStepRest(s, s', i);
  }

  // ---------- entering and leaving a call ----------

  // Logging an event of a call that is not outstanding touches no outstanding call.
  lemma EdgeTouches(s: State, s': State, c: Task, k: Client, e: Event)
    requires c in s.clients && e.id.task == c && !Outstanding(s.clients[c], s.clients[c].serial)
    requires s'.clients == s.clients[c := k] && s'.log == s.log + [e]
    ensures OnlyTouches(s, s', None)
  {
    hide History;
    HistoryAppend(s.log, e);
  }

  // The client's part of entering or leaving a call.
  lemma EdgeRest(s: State, s': State, c: Task, k: Client, e: Event)
    requires ClientsOk(s) && HistoriesOk(s) && c in s.clients
    requires e.id == CallId(c, s.clients[c].serial) && Canonical(History(s.log, e.id) + [e])
    requires s'.clients == s.clients[c := k] && s'.log == s.log + [e]
    requires s'.isr == s.isr && s'.mbox == s.mbox
    requires (k.serial == e.id.serial && ClientOk(k, History(s.log, e.id) + [e], BeingWoken(s, c)))
          || (k.serial == e.id.serial + 1 && k.pc == Idle && |History(s.log, e.id)| == 5)
    ensures ClientsOk(s') && HistoriesOk(s')
  {
    hide History, BeingWoken;
    HistoryAppend(s.log, e);
    assert forall d :: BeingWoken(s', d) == BeingWoken(s, d) by { BeingWokenFrame(s, s'); }
    forall id: Addr ensures PastOk(s'.clients, id, History(s'.log, id)) {
      assert PastOk(s.clients, id, History(s.log, id));
    }
    forall d | d in s'.clients
      ensures ClientOk(s'.clients[d], History(s'.log, CallId(d, s'.clients[d].serial)), BeingWoken(s', d))
    {
      assert ClientOk(s.clients[d], History(s.log, CallId(d, s.clients[d].serial)), BeingWoken(s, d));
      assert PastOk(s.clients, CallId(d, s'.clients[d].serial), History(s.log, CallId(d, s'.clients[d].serial)));
    }
  }

  lemma BeingWokenFrame(s: State, s': State)
    requires s'.isr == s.isr && s'.mbox == s.mbox
    ensures forall d :: BeingWoken(s', d) == BeingWoken(s, d)
  {
  }

  lemma ClientSendQueue(s: State, c: Task)
    requires QueueOk(s) && HeldOk(s) && ClientsOk(s) && Enabled(s, ClientSend(c))
    requires OnlyTouches(s, DoClientSend(s, c), None)
    ensures QueueOk(DoClientSend(s, c)) && HeldOk(DoClientSend(s, c))
  {
    hide History;
    var s' := DoClientSend(s, c);
    var k := s.clients[c];
    var a := CallId(c, k.serial);
    assert ClientOk(k, History(s.log, a), BeingWoken(s, c));
    HistoryAppend(s.log, Accept(a, k.msg));
    forall j | 0 <= j < |s'.queue| ensures KnownRequest(s', s'.queue[j]) {
      if j < |s.queue| {
        assert KnownRequest(s, s.queue[j]);
        assert OutstandingAt(s, s.queue[j].reply);
      }
    }
    forall i, j | 0 <= i < j < |s'.queue| ensures s'.queue[i].reply != s'.queue[j].reply {
      assert KnownRequest(s, s.queue[i]);
    }
    if s.req.Some? {
      assert KnownRequest(s, s.req.value);
      assert OutstandingAt(s, s.req.value.reply);
    }
  }

  lemma ClientSendInv(s: State, c: Task)
    requires Inv(s) && Enabled(s, ClientSend(c))
    ensures Inv(DoClientSend(s, c))
  {
    hide Shape, History, PhaseCount, RequestOk, FilledOk, SlotOk, QueueOk, HeldOk, PastOk;
    var s' := DoClientSend(s, c);
    var k := s.clients[c];
    var e := Accept(CallId(c, k.serial), k.msg);
    assert ClientOk(k, History(s.log, e.id), BeingWoken(s, c));
    ShapeFrame(s, s');
    EdgeTouches(s, s', c, s'.clients[c], e);
    EdgeRest(s, s', c, s'.clients[c], e);
    ClientSendQueue(s, c);
    forall i | i in s'.mbox.slots && InFlight(s', i) ensures KnownSlot(s', i) {
      SlotFrame(s, s', None, i);
    }
  }

  // The held request survives any step that leaves it, the queue and the mailbox alone.
  lemma HeldKept(s: State, s': State)
    requires HeldOk(s) && OnlyTouches(s, s', None)
    requires s'.queue == s.queue && s'.req == s.req && s'.thread == s.thread && s'.mbox.slots == s.mbox.slots
    ensures HeldOk(s')
  {
    hide History, RequestOk;
    HeldFrame(s, s', None);
  }

  lemma ClientReturnInv(s: State, c: Task)
    requires Inv(s) && Enabled(s, ClientCheck(c)) && s.clients[c].wokenFlag
    ensures Inv(DoClientCheck(s, c))
  {
    hide Shape, History, PhaseCount, RequestOk, FilledOk, SlotOk, QueueOk, HeldOk, PastOk;
    var s' := DoClientCheck(s, c);
    var k := s.clients[c];
    var e := Return(CallId(c, k.serial), k.replyCell);
    assert ClientOk(k, History(s.log, e.id), BeingWoken(s, c));
    ShapeFrame(s, s');
    EdgeTouches(s, s', c, s'.clients[c], e);
    EdgeRest(s, s', c, s'.clients[c], e);
    QueueFrame(s, s', None);
    HeldKept(s, s');
    forall i | i in s'.mbox.slots && InFlight(s', i) ensures KnownSlot(s', i) {
      SlotFrame(s, s', None, i);
    }
  }

  lemma ClientCheckInv(s: State, c: Task)
    requires Inv(s) && Enabled(s, ClientCheck(c))
    ensures Inv(DoClientCheck(s, c))
  {
    if s.clients[c].wokenFlag {
      ClientReturnInv(s, c);
    } else {
      ClientStep(s, c, DoClientCheck(s, c).clients[c]);
    }
  }

  // ---------- the mailbox thread's handling of one request ----------

  lemma ThreadReceiveInv(s: State)
    requires Inv(s) && Enabled(s, ThreadReceive)
    ensures Inv(DoThreadReceive(s))
  {
    hide Shape, History, PhaseCount, RequestOk, SlotOk, PastOk, ClientOk, Canonical;
    var s' := DoThreadReceive(s);
    ShapeFrame(s, s');
    QueueFrame(s, s', None);
    assert KnownRequest(s, s.queue[0]);
    BeingWokenFrame(s, s');
    forall i | i in s'.mbox.slots && InFlight(s', i) ensures KnownSlot(s', i) {
      SlotFrame(s, s', None, i);
    }
    forall c | c in s'.clients
      ensures ClientOk(s'.clients[c], History(s'.log, CallId(c, s'.clients[c].serial)), BeingWoken(s', c))
    {
      assert ClientOk(s.clients[c], History(s.log, CallId(c, s.clients[c].serial)), BeingWoken(s, c));
    }
  }

  lemma FillSlots(s: State, s': State, i: SlotIdx)
    requires Shape(s) && IsrOk(s) && SlotsOk(s) && ClientsOk(s) && Filling(s, i) && i in s.mbox.slots && i in s'.mbox.slots
    requires s' == s.(thread := s'.thread, mbox := SetSlot(s.mbox, i, s'.mbox.slots[i]))
    ensures SlotsOk(s') && ClientsOk(s')
  {
    hide History, SlotOk, ClientOk, Canonical;
    assert PhaseCount(s, i) == 1;
    forall j | j in s'.mbox.slots && InFlight(s', j) ensures KnownSlot(s', j) {
      assert KnownSlot(s, j);
    }
    forall c | c in s'.clients
      ensures ClientOk(s'.clients[c], History(s'.log, CallId(c, s'.clients[c].serial)), BeingWoken(s', c))
    {
      assert BeingWoken(s', c) == BeingWoken(s, c);
    }
  }

  // Writing into the slot being filled disturbs nothing else.
  lemma FillRest(s: State, s': State, i: SlotIdx)
    requires Inv(s) && Filling(s, i) && i in s.mbox.slots && i in s'.mbox.slots
    requires s' == s.(thread := s'.thread, mbox := SetSlot(s.mbox, i, s'.mbox.slots[i]))
    requires s'.thread == FillingReply(i) || s'.thread == Pending(i)
    requires s.req.Some? && s.req.value.reply.task in s.clients ==>
      FilledOk(s'.thread, s.req.value, s'.mbox.slots[i], s.clients[s.req.value.reply.task])
    ensures Inv(s')
  {
    hide Shape, History, PhaseCount, RequestOk, SlotsOk, ClientsOk, PastOk, FilledOk, Canonical;
    ShapeFrame(s, s');
    FillSlots(s, s', i);
    QueueFrame(s, s', None);
    HeldFrame(s, s', None);
  }

  lemma ThreadFillMsgInv(s: State)
    requires Inv(s) && Enabled(s, ThreadFillMsg)
    ensures Inv(DoThreadFillMsg(s))
  {
    hide History, PhaseCount, SlotOk, PastOk, ClientOk, Canonical;
    assert KnownRequest(s, s.req.value);
    FillRest(s, DoThreadFillMsg(s), s.thread.idx);
  }

  lemma ThreadFillReplyInv(s: State)
    requires Inv(s) && Enabled(s, ThreadFillReply)
    ensures Inv(DoThreadFillReply(s))
  {
    hide History, PhaseCount, SlotOk, PastOk, ClientOk, Canonical;
    assert KnownRequest(s, s.req.value);
    assert Filling(s, s.thread.idx);
    FillRest(s, DoThreadFillReply(s), s.thread.idx);
  }

  lemma ThreadPendSlot(s: State) returns (e: Event)
    requires Shape(s) && IsrOk(s) && QueueOk(s) && HeldOk(s) && ClientsOk(s) && Enabled(s, ThreadPend)
    ensures OutstandingAt(s, e.id) && e.id == s.req.value.reply && |History(s.log, e.id)| == 1
    ensures Canonical(History(s.log, e.id) + [e])
    ensures DoThreadPend(s).log == s.log + [e] && KnownSlot(DoThreadPend(s), s.thread.idx)
    ensures !InFlight(s, s.thread.idx) && s.mbox.slots[s.thread.idx].reply == Some(e.id)
  {
    hide History;
    var i := s.thread.idx;
    assert Filling(s, i);
    assert PhaseCount(s, i) == 1;
    assert KnownRequest(s, s.req.value);
    var a := s.req.value.reply;
    assert ClientOk(s.clients[a.task], History(s.log, a), BeingWoken(s, a.task));
    e := Pend(a, i, s.mbox.slots[i].msg);
    HistoryAppend(s.log, e);
  }

  lemma PendKeeps(s: State)
    requires ThreadOk(s) && IsrOk(s) && WindowOk(s) && Enabled(s, ThreadPend)
    ensures ThreadOk(DoThreadPend(s)) && IsrOk(DoThreadPend(s)) && WindowOk(DoThreadPend(s))
  {
  }

  lemma ThreadPendInv(s: State)
    requires Inv(s) && Enabled(s, ThreadPend)
    ensures Inv(DoThreadPend(s))
  {
    hide Shape, History, Canonical, SlotOk, ClientOk, RequestOk, PastOk, FilledOk, PhaseCount, ClientsOk, HistoriesOk, QueueOk;
    var s' := DoThreadPend(s);
    var i := s.thread.idx;
    var e := ThreadPendSlot(s);
    PendShape(s);
    PendKeeps(s);
    hide ThreadOk, IsrOk, WindowOk;
    LogStepTouches(s, s', e, 0);
    LogStepRest(s, s', e, 0);
    QueueFrame(s, s', Some(e.id));
    forall j | j in s'.mbox.slots && InFlight(s', j) ensures KnownSlot(s', j) {
      if j != i {
        PendOthers(s, j);
        SlotFrame(s, s', Some(e.id), j);
      }
    }
  }

  lemma PendOthers(s: State, j: SlotIdx)
    requires HeldOk(s) && SlotsOk(s) && s.req.Some? && j in s.mbox.slots && InFlight(s, j)
    ensures s.isr.pc == Waking(j) || s.mbox.slots[j].reply != Some(s.req.value.reply)
  {
    hide History, Canonical;
    assert KnownSlot(s, j) && KnownRequest(s, s.req.value);
  }

  // ---------- raising the flag and waking the owner ----------

  lemma IsrFlagOther(s: State, c: Task, h: seq<Event>)
    requires Enabled(s, IsrFlag) && c in s.clients && s.mbox.slots[s.isr.pc.idx].wokenFlag.Some?
    requires s.mbox.slots[s.isr.pc.idx].wokenFlag.value.task != c
    requires ClientOk(s.clients[c], h, BeingWoken(s, c))
    ensures ClientOk(DoIsrFlag(s).clients[c], h, BeingWoken(DoIsrFlag(s), c))
  {
    hide Canonical;
  }

  lemma IsrFlagOwner(s: State, a: Addr, h: seq<Event>)
    requires Enabled(s, IsrFlag) && PhaseCount(s, s.isr.pc.idx) == 1 && s.isr.pc.idx in s.isr.remaining
    requires SlotNames(s.mbox.slots[s.isr.pc.idx], a) && a.task in s.clients
    requires SlotOk(s.mbox.slots[s.isr.pc.idx], s.isr.pc.idx, Stage(s, s.isr.pc.idx), s.clients[a.task], h)
    requires ClientOk(s.clients[a.task], h, BeingWoken(s, a.task))
    ensures ClientOk(DoIsrFlag(s).clients[a.task], h, BeingWoken(DoIsrFlag(s), a.task))
  {
    assert BeingWoken(DoIsrFlag(s), a.task);
  }

  lemma IsrFlagClients(s: State)
    requires Shape(s) && IsrOk(s) && SlotsOk(s) && ClientsOk(s) && HistoriesOk(s) && Enabled(s, IsrFlag)
    ensures ClientsOk(DoIsrFlag(s)) && HistoriesOk(DoIsrFlag(s))
    ensures !s.wild ==> !DoIsrFlag(s).wild
    ensures OnlyTouches(s, DoIsrFlag(s), s.mbox.slots[s.isr.pc.idx].reply)
  {
    hide History, ClientOk, Canonical, PhaseCount;
    var s' := DoIsrFlag(s);
    var i := s.isr.pc.idx;
    assert PhaseCount(s, i) == 1;
    assert KnownSlot(s, i);
    var a := s.mbox.slots[i].reply.value;
    forall c | c in s'.clients
      ensures ClientOk(s'.clients[c], History(s'.log, CallId(c, s'.clients[c].serial)), BeingWoken(s', c))
    {
      assert ClientOk(s.clients[c], History(s.log, CallId(c, s.clients[c].serial)), BeingWoken(s, c));
      if c == a.task {
        IsrFlagOwner(s, a, History(s.log, a));
      } else {
        IsrFlagOther(s, c, History(s.log, CallId(c, s.clients[c].serial)));
      }
    }
  }

  lemma IsrFlagInv(s: State)
    requires Inv(s) && Enabled(s, IsrFlag)
    ensures Inv(DoIsrFlag(s))
  {
    hide Shape, History, Canonical, SlotOk, ClientOk, RequestOk, PastOk, FilledOk, PhaseCount, QueueOk, HeldOk, ClientsOk, HistoriesOk;
    var s' := DoIsrFlag(s);
    ShapeFrame(s, s');
    IsrFlagClients(s);
    assert KnownSlot(s, s.isr.pc.idx);
    SlotStepRest(s, s', s.isr.pc.idx);
  }

  lemma IsrWakeClient(s: State, c: Task, h: seq<Event>)
    requires SlotsOk(s) && IsrOk(s) && Enabled(s, IsrWake) && c in s.clients && KnownSlot(s, s.isr.pc.idx)
    requires ClientOk(s.clients[c], h, BeingWoken(s, c))
    ensures ClientOk(DoIsrWake(s).clients[c], h, BeingWoken(DoIsrWake(s), c))
  {
    hide Canonical, SlotOk, Count, PhaseCount;
  }

  lemma IsrWakeClients(s: State)
    requires Shape(s) && IsrOk(s) && SlotsOk(s) && ClientsOk(s) && HistoriesOk(s) && Enabled(s, IsrWake)
    ensures ClientsOk(DoIsrWake(s)) && HistoriesOk(DoIsrWake(s))
    ensures OnlyTouches(s, DoIsrWake(s), None)
  {
    hide History, Canonical, SlotOk, Count, ClientOk, PhaseCount;
    var s' := DoIsrWake(s);
    assert KnownSlot(s, s.isr.pc.idx);
    forall c | c in s'.clients
      ensures ClientOk(s'.clients[c], History(s'.log, CallId(c, s'.clients[c].serial)), BeingWoken(s', c))
    {
      assert ClientOk(s.clients[c], History(s.log, CallId(c, s.clients[c].serial)), BeingWoken(s, c));
      IsrWakeClient(s, c, History(s.log, CallId(c, s.clients[c].serial)));
    }
  }

  lemma IsrWakeInv(s: State)
    requires Inv(s) && Enabled(s, IsrWake)
    ensures Inv(DoIsrWake(s))
  {
    hide Shape, History, Canonical, SlotOk, ClientOk, RequestOk, PastOk, FilledOk, PhaseCount, QueueOk, HeldOk, ClientsOk, HistoriesOk;
    var s' := DoIsrWake(s);
    WakeShape(s);
    IsrWakeClients(s);
    QueueFrame(s, s', None);
    HeldKept(s, s');
    forall j | j in s'.mbox.slots && InFlight(s', j) ensures KnownSlot(s', j) {
      SlotFrame(s, s', None, j);
    }
  }

  // ---------- every step, every run ----------

  lemma StepInv(s: State, t: Step)
    requires Inv(s) && Enabled(s, t)
    ensures Inv(Apply(s, t))
  {
    hide Inv;
    match t
    case ClientCall(c, msg, hasParams, hasReply, oldReply) => ClientCallInv(s, c, msg, hasParams, hasReply, oldReply);
    case ClientSend(c) => ClientSendInv(s, c);
    case ClientCheck(c) => ClientCheckInv(s, c);
    case ClientWake(c) => ClientWakeInv(s, c);
    case OtherFlag(c) => OtherFlagInv(s, c);
    case ThreadReceive => ThreadReceiveInv(s);
    case ThreadClaim(i) => ThreadClaimInv(s, i);
    case ThreadFillMsg => ThreadFillMsgInv(s);
    case ThreadFillReply => ThreadFillReplyInv(s);
    case ThreadPend => ThreadPendInv(s);
    case SecureTake(i) => SecureTakeInv(s, i);
    case SecureAnswer(i, v) => SecureAnswerInv(s, i, v);
    case SecureReply(i) => SecureReplyInv(s, i);
    case IsrEnter => IsrEnterInv(s);
    case IsrWrite(i) => IsrWriteInv(s, i);
    case IsrFlag => IsrFlagInv(s);
    case IsrWake => IsrWakeInv(s);
    case IsrRelease => IsrReleaseInv(s);
    case IsrCheckFull => IsrCheckFullInv(s);
    case _ => ThreadWaitInv(s, t);
  }
}
