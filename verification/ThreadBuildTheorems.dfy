/** What the invariant of the mailbox-thread build says about every run. */
module ThreadBuildTheorems {
  import opened Histories
  import opened MailboxTypes
  import opened Wrappers
  import opened ThreadBuild
  import opened ThreadBuildInv

  // ---------- conservation: an accepted, unanswered request is somewhere ----------

  ghost predicate Queued(s: State, id: Addr) {
    exists k :: 0 <= k < |s.queue| && s.queue[k].reply == id
  }

  ghost predicate Held(s: State, id: Addr) {
    s.req.Some? && s.req.value.reply == id
  }

  ghost predicate InSlot(s: State, id: Addr, i: SlotIdx) {
    i in s.mbox.slots && InFlight(s, i) && s.isr.pc != Waking(i) && s.mbox.slots[i].reply == Some(id)
  }

  ghost predicate Somewhere(s: State, id: Addr) {
    Queued(s, id) || Held(s, id) || exists i :: InSlot(s, id, i)
  }

  ghost predicate NothingLost(s: State) {
    forall id: Addr | OutstandingAt(s, id) :: Somewhere(s, id)
  }

  // ---------- order ----------

  function AcceptIds(log: seq<Event>): seq<Addr> {
    if log == [] then []
    else AcceptIds(log[..|log| - 1]) + (if log[|log| - 1].Accept? then [log[|log| - 1].id] else [])
  }

  function PendIds(log: seq<Event>): seq<Addr> {
    if log == [] then []
    else PendIds(log[..|log| - 1]) + (if log[|log| - 1].Pend? then [log[|log| - 1].id] else [])
  }

  function ReplyPtrs(queue: seq<Request>): seq<Addr> {
    seq(|queue|, k requires 0 <= k < |queue| => queue[k].reply)
  }

  // Requests are pended in the order in which they were accepted.
  ghost predicate InOrder(s: State) {
    AcceptIds(s.log) ==
      PendIds(s.log) + (if s.req.Some? then [s.req.value.reply] else []) + ReplyPtrs(s.queue)
  }

  lemma IdsAppend(log: seq<Event>, e: Event)
    ensures AcceptIds(log + [e]) == AcceptIds(log) + (if e.Accept? then [e.id] else [])
    ensures PendIds(log + [e]) == PendIds(log) + (if e.Pend? then [e.id] else [])
  {
    assert (log + [e])[..|log|] == log;
  }

  lemma SendOrder(s: State, c: Task)
    requires InOrder(s) && Enabled(s, ClientSend(c))
    ensures InOrder(DoClientSend(s, c))
  {
    var s' := DoClientSend(s, c);
    IdsAppend(s.log, s'.log[|s.log|]);
    assert ReplyPtrs(s'.queue) == ReplyPtrs(s.queue) + [CallId(c, s.clients[c].serial)];
  }

  lemma ReceiveOrder(s: State)
    requires InOrder(s) && ThreadOk(s) && Enabled(s, ThreadReceive)
    ensures InOrder(DoThreadReceive(s))
  {
    assert ReplyPtrs(s.queue) == [s.queue[0].reply] + ReplyPtrs(s.queue[1..]);
  }

  // The one event a step logs, when it is neither an accept nor a receive.
  ghost predicate LogsOne(s: State, s': State, e: Event) {
    && s'.log == s.log + [e] && !e.Accept?
    && if e.Pend? then s.req.Some? && s.req.value.reply == e.id && s'.req == None else s'.req == s.req
  }

  lemma StepLog(s: State, t: Step)
    requires Enabled(s, t) && !t.ClientSend? && !t.ThreadReceive?
    ensures Apply(s, t).queue == s.queue
    ensures (Apply(s, t).log == s.log && Apply(s, t).req == s.req) || exists e :: LogsOne(s, Apply(s, t), e)
  {
    if t.ThreadSnapshot? || t.ThreadClaim? || t.ThreadFillMsg? || t.ThreadFillReply? || t.ThreadPend?
       || t.ThreadMarkFull? || t.ThreadWake? {
      ThreadStepLog(s, t);
    } else if t.IsrEnter? || t.IsrWrite? || t.IsrFlag? || t.IsrWake? || t.IsrRelease? || t.IsrCheckFull? {
      IsrStepLog(s, t);
    } else {
      var s' := Apply(s, t);
      if s'.log != s.log {
        assert LogsOne(s, s', s'.log[|s.log|]);
      }
    }
  }

  lemma IsrStepLog(s: State, t: Step)
    requires Enabled(s, t)
    requires t.IsrEnter? || t.IsrWrite? || t.IsrFlag? || t.IsrWake? || t.IsrRelease? || t.IsrCheckFull?
    ensures Apply(s, t).queue == s.queue
    ensures (Apply(s, t).log == s.log && Apply(s, t).req == s.req) || exists e :: LogsOne(s, Apply(s, t), e)
  {
    if t.IsrWrite? {
      WriteLog(s, t.idx);
    } else {
      IsrSilent(s, t);
    }
  }

  lemma WriteLog(s: State, i: SlotIdx)
    requires Enabled(s, IsrWrite(i))
    ensures
      var s' := Apply(s, IsrWrite(i));
      s'.queue == s.queue && ((s'.log == s.log && s'.req == s.req) || exists e :: LogsOne(s, s', e))
  {
    var s' := DoIsrWrite(s, i);
    if s'.log != s.log {
      assert LogsOne(s, s', s'.log[|s.log|]);
    }
  }

  lemma IsrSilent(s: State, t: Step)
    requires Enabled(s, t) && (t.IsrEnter? || t.IsrFlag? || t.IsrWake? || t.IsrRelease? || t.IsrCheckFull?)
    ensures Apply(s, t).queue == s.queue && Apply(s, t).log == s.log && Apply(s, t).req == s.req
  {
  }

  lemma ThreadStepLog(s: State, t: Step)
    requires Enabled(s, t)
    requires t.ThreadSnapshot? || t.ThreadClaim? || t.ThreadFillMsg? || t.ThreadFillReply? || t.ThreadPend?
             || t.ThreadMarkFull? || t.ThreadWake?
    ensures Apply(s, t).queue == s.queue
    ensures (Apply(s, t).log == s.log && Apply(s, t).req == s.req) || exists e :: LogsOne(s, Apply(s, t), e)
  {
    var s' := Apply(s, t);
    if s'.log != s.log {
      assert LogsOne(s, s', s'.log[|s.log|]);
    }
  }

  lemma OtherOrder(s: State, t: Step)
    requires InOrder(s) && Enabled(s, t) && !t.ClientSend? && !t.ThreadReceive?
    ensures InOrder(Apply(s, t))
  {
    hide Apply, Enabled;
    StepLog(s, t);
    if e :| LogsOne(s, Apply(s, t), e) {
      IdsAppend(s.log, e);
    }
  }

  lemma StepOrder(s: State, t: Step)
    requires ThreadOk(s) && InOrder(s) && Enabled(s, t)
    ensures InOrder(Apply(s, t))
  {
    hide InOrder;
    if t.ClientSend? {
      SendOrder(s, t.c);
    } else if t.ThreadReceive? {
      ReceiveOrder(s);
    } else {
      OtherOrder(s, t);
    }
  }

  // ---------- no step loses a request ----------

  lemma KeepsPlaces(s: State, s': State)
    requires NothingLost(s)
    requires forall id | OutstandingAt(s', id) :: OutstandingAt(s, id)
    requires s'.queue == s.queue && s'.req == s.req
    requires forall id, i | OutstandingAt(s', id) && InSlot(s, id, i) :: InSlot(s', id, i)
    ensures NothingLost(s')
  {
    forall id: Addr | OutstandingAt(s', id) ensures Somewhere(s', id) {
      assert Somewhere(s, id);
      if i :| InSlot(s, id, i) {
        assert InSlot(s', id, i);
      }
    }
  }

  lemma SendLosesNothing(s: State, c: Task)
    requires NothingLost(s) && Enabled(s, ClientSend(c))
    ensures NothingLost(DoClientSend(s, c))
  {
    var s' := DoClientSend(s, c);
    forall id: Addr | OutstandingAt(s', id) ensures Somewhere(s', id) {
      if id == CallId(c, s.clients[c].serial) {
        assert s'.queue[|s.queue|].reply == id;
      } else {
        assert Somewhere(s, id);
        if i :| InSlot(s, id, i) {
          assert InSlot(s', id, i);
        } else if k :| 0 <= k < |s.queue| && s.queue[k].reply == id {
          assert s'.queue[k].reply == id;
        }
      }
    }
  }

  lemma ReceiveLosesNothing(s: State)
    requires NothingLost(s) && ThreadOk(s) && Enabled(s, ThreadReceive)
    ensures NothingLost(DoThreadReceive(s))
  {
    var s' := DoThreadReceive(s);
    forall id: Addr | OutstandingAt(s', id) ensures Somewhere(s', id) {
      assert Somewhere(s, id);
      if i :| InSlot(s, id, i) {
        assert InSlot(s', id, i);
      } else if k :| 0 <= k < |s.queue| && s.queue[k].reply == id && k > 0 {
        assert s'.queue[k - 1].reply == id;
      }
    }
  }

  lemma PendLosesNothing(s: State)
    requires NothingLost(s) && Shape(s) && IsrOk(s) && HeldOk(s) && Enabled(s, ThreadPend)
    ensures NothingLost(DoThreadPend(s))
  {
    hide History, Canonical, RequestOk;
    var s' := DoThreadPend(s);
    assert Filling(s, s.thread.idx) && PhaseCount(s, s.thread.idx) == 1;
    forall id: Addr | OutstandingAt(s', id) ensures Somewhere(s', id) {
      assert Somewhere(s, id);
      if Held(s, id) {
        assert InSlot(s', id, s.thread.idx);
      } else if i :| InSlot(s, id, i) {
        assert InSlot(s', id, i);
      }
    }
  }

  lemma ClientLosesNothing(s: State, t: Step)
    requires NothingLost(s) && Enabled(s, t)
    requires t.ClientCall? || t.ClientCheck? || t.ClientWake? || t.OtherFlag?
    ensures NothingLost(Apply(s, t))
  {
    hide NothingLost, History;
    KeepsPlaces(s, Apply(s, t));
  }

  lemma ThreadLosesNothing(s: State, t: Step)
    requires NothingLost(s) && Enabled(s, t)
    requires t.ThreadSnapshot? || t.ThreadMarkFull? || t.ThreadWake? || t.ThreadOtherFlag? || t.ThreadClearFull?
          || t.ThreadClaim?
    ensures NothingLost(Apply(s, t))
  {
    KeepsPlaces(s, Apply(s, t));
  }

  lemma FillLosesNothing(s: State, t: Step)
    requires NothingLost(s) && Shape(s) && IsrOk(s) && Enabled(s, t)
    requires t.ThreadFillMsg? || t.ThreadFillReply?
    ensures NothingLost(Apply(s, t))
  {
    hide NothingLost;
    assert Filling(s, s.thread.idx) && PhaseCount(s, s.thread.idx) == 1;
    KeepsPlaces(s, Apply(s, t));
  }

  lemma SecureLosesNothing(s: State, t: Step)
    requires NothingLost(s) && Enabled(s, t)
    requires t.SecureTake? || t.SecureAnswer? || t.SecureReply?
    ensures NothingLost(Apply(s, t))
  {
    hide NothingLost;
    KeepsPlaces(s, Apply(s, t));
  }

  lemma IsrLosesNothing(s: State, t: Step)
    requires NothingLost(s) && SlotsOk(s) && IsrOk(s) && Enabled(s, t)
    requires t.IsrEnter? || t.IsrWrite? || t.IsrFlag? || t.IsrWake? || t.IsrRelease? || t.IsrCheckFull?
    ensures NothingLost(Apply(s, t))
  {
    hide History, Canonical, SlotOk, NothingLost;
    if t.IsrWake? || t.IsrFlag? {
      assert KnownSlot(s, s.isr.pc.idx);
    }
    KeepsPlaces(s, Apply(s, t));
  }

  lemma StepLosesNothing(s: State, t: Step)
    requires Inv(s) && NothingLost(s) && Enabled(s, t)
    ensures NothingLost(Apply(s, t))
  {
    hide NothingLost, Shape, IsrOk, ThreadOk, QueueOk, HeldOk, SlotsOk, ClientsOk, HistoriesOk, WindowOk;
    match t
    case ClientSend(c) => SendLosesNothing(s, c);
    case ThreadReceive => ReceiveLosesNothing(s);
    case ThreadPend => PendLosesNothing(s);
    case ClientCall(_, _, _, _, _) => ClientLosesNothing(s, t);
    case ClientCheck(_) => ClientLosesNothing(s, t);
    case ClientWake(_) => ClientLosesNothing(s, t);
    case OtherFlag(_) => ClientLosesNothing(s, t);
    case ThreadFillMsg => FillLosesNothing(s, t);
    case ThreadFillReply => FillLosesNothing(s, t);
    case SecureTake(_) => SecureLosesNothing(s, t);
    case SecureAnswer(_, _) => SecureLosesNothing(s, t);
    case SecureReply(_) => SecureLosesNothing(s, t);
    case IsrEnter => IsrLosesNothing(s, t);
    case IsrWrite(_) => IsrLosesNothing(s, t);
    case IsrFlag => IsrLosesNothing(s, t);
    case IsrWake => IsrLosesNothing(s, t);
    case IsrRelease => IsrLosesNothing(s, t);
    case IsrCheckFull => IsrLosesNothing(s, t);
    case _ => ThreadLosesNothing(s, t);
  }

  // ---------- theorems over whole runs ----------

  ghost predicate Reachable(s: State) {
    exists s0, run :: Init(s0) && ValidRun(s0, run) && s == Final(s0, run)
  }

  ghost predicate AllInv(s: State) {
    Inv(s) && NothingLost(s) && InOrder(s)
  }

  lemma {:induction false} RunInv(s: State, run: seq<Step>)
    requires AllInv(s) && ValidRun(s, run)
    ensures AllInv(Final(s, run))
    decreases |run|
  {
    if run != [] {
      var s' := Apply(s, run[0]);
      assert AllInv(s') by {
        hide Apply, Enabled, Shape, QueueOk, HeldOk, SlotsOk, ClientsOk, HistoriesOk, WindowOk, NothingLost, InOrder, Init;
        StepInv(s, run[0]);
        StepLosesNothing(s, run[0]);
        StepOrder(s, run[0]);
      }
      hide AllInv;
      RunInv(s', run[1..]);
    }
  }

  lemma ReachableInv(s: State)
    requires Reachable(s)
    ensures AllInv(s)
  {
    var s0, run :| Init(s0) && ValidRun(s0, run) && s == Final(s0, run);
    InitInv(s0);
    RunInv(s0, run);
  }

  // A flagged call returns success and the value the secure side produced for it; its whole history is
  // accept, pend, take, answer, deliver, return, each once.
  lemma FlaggedCallReturns(s: State, c: Task)
    requires Reachable(s) && Enabled(s, ClientCheck(c)) && s.clients[c].wokenFlag
    ensures
      var s', id := Apply(s, ClientCheck(c)), CallId(c, s.clients[c].serial);
      var h := History(s'.log, id);
      && s'.clients[c].ret == SUCCESS && s'.clients[c].pc == Idle
      && |h| == 6 && Canonical(h)
      && h[2].msg == s.clients[c].msg
      && s'.clients[c].replyCell == h[3].value
  {
    hide Shape, QueueOk, HeldOk, SlotsOk, History, NothingLost, InOrder, PastOk, WindowOk;
    ReachableInv(s);
    var k := s.clients[c];
    assert ClientOk(k, History(s.log, CallId(c, k.serial)), BeingWoken(s, c));
    HistoryAppend(s.log, Return(CallId(c, k.serial), k.replyCell));
  }

  // Of no request is any event logged twice, out of order, or with another message, slot or value;
  // finished calls have all six events.
  lemma HistoriesAreCanonical(s: State, id: Addr)
    requires Reachable(s)
    ensures Canonical(History(s.log, id))
    ensures id.task in s.clients && id.serial < s.clients[id.task].serial ==> |History(s.log, id)| == 6
  {
    hide Shape, QueueOk, HeldOk, SlotsOk, ClientsOk, History, Canonical, NothingLost, InOrder, WindowOk;
    ReachableInv(s);
  }

  // Every slot is in exactly one phase; the three status words never overlap and name only slots.
  lemma PhasesPartitionSlots(s: State)
    requires Reachable(s)
    ensures forall i | i in s.all :: PhaseCount(s, i) == 1
    ensures s.mbox.empty !! s.mbox.pend !! s.mbox.replied
    ensures s.mbox.empty + s.mbox.pend + s.mbox.replied <= s.all
  {
    hide QueueOk, HeldOk, SlotsOk, ClientsOk, HistoriesOk, NothingLost, InOrder, WindowOk;
    ReachableInv(s);
    forall i | i in s.mbox.empty + s.mbox.pend + s.mbox.replied
      ensures i in s.all && PhaseCount(s, i) == 1 {}
  }

  // No pointer into a client's stack is followed after that call ended, and none while null.
  lemma NoStalePointerFollowed(s: State)
    requires Reachable(s)
    ensures !s.wild
  {
    hide Shape, QueueOk, HeldOk, SlotsOk, ClientsOk, HistoriesOk, NothingLost, InOrder, WindowOk;
    ReachableInv(s);
  }

  // A client asleep with its thread flag down has not been flagged as answered, and its request is in
  // exactly one of the queue, the mailbox thread's hands or a slot: unless the interrupt handler is
  // just about to wake it.
  lemma NoLostWakeUp(s: State, c: Task)
    requires Reachable(s) && c in s.clients && s.clients[c].pc == Waiting && !s.clients[c].threadFlag
    ensures s.clients[c].wokenFlag ==> BeingWoken(s, c)
    ensures !s.clients[c].wokenFlag ==> Somewhere(s, CallId(c, s.clients[c].serial))
  {
    hide Shape, QueueOk, HeldOk, SlotsOk, HistoriesOk, InOrder, WindowOk, History, Canonical;
    ReachableInv(s);
    assert ClientOk(s.clients[c], History(s.log, CallId(c, s.clients[c].serial)), BeingWoken(s, c));
    if !s.clients[c].wokenFlag {
      assert OutstandingAt(s, CallId(c, s.clients[c].serial));
    }
  }

  lemma PlacesAreExclusive(s: State, id: Addr, i: SlotIdx, j: SlotIdx)
    requires Reachable(s) && InSlot(s, id, i)
    ensures !Queued(s, id) && !Held(s, id) && (InSlot(s, id, j) ==> i == j)
  {
    hide Shape, QueueOk, HeldOk, SlotsOk, ClientsOk, HistoriesOk, NothingLost, InOrder, WindowOk;
    ReachableInv(s);
    SlotRequestIsUnique(s, i);
  }

  // Requests are pended in the order of acceptance, and none is left out.
  lemma PendedInOrder(s: State)
    requires Reachable(s)
    ensures PendIds(s.log) <= AcceptIds(s.log)
    ensures |AcceptIds(s.log)| - |PendIds(s.log)| == |s.queue| + (if s.req.Some? then 1 else 0)
  {
    hide Shape, QueueOk, HeldOk, SlotsOk, ClientsOk, HistoriesOk, NothingLost, WindowOk;
    ReachableInv(s);
  }

  // An interrupt pass releases exactly the slots of its snapshot.
  lemma PassReleasesSnapshot(s: State)
    requires Reachable(s) && Enabled(s, IsrRelease)
    ensures s.isr.complete == s.isr.snapshot && s.isr.remaining == {} && s.isr.snapshot != {}
    ensures Apply(s, IsrRelease).mbox.empty == s.mbox.empty + s.isr.snapshot
  {
    hide QueueOk, HeldOk, SlotsOk, ClientsOk, HistoriesOk, NothingLost, InOrder, WindowOk, PhaseCount;
    ReachableInv(s);
  }

  // The mailbox thread waits only for a queue entry and, with every slot taken, for its thread flag.
  lemma ThreadNeverStuck(s: State)
    requires Reachable(s)
    ensures s.thread.Claiming? ==> exists i :: Enabled(s, ThreadClaim(i))
    ensures s.thread.FillingMsg? ==> Enabled(s, ThreadFillMsg)
    ensures s.thread.FillingReply? ==> Enabled(s, ThreadFillReply)
    ensures s.thread.Pending? ==> Enabled(s, ThreadPend)
  {
    hide QueueOk, HeldOk, SlotsOk, ClientsOk, HistoriesOk, NothingLost, InOrder, WindowOk, PhaseCount;
    ReachableInv(s);
    if s.thread.Claiming? {
      var i := LowestExists(s.thread.status);
      assert Enabled(s, ThreadClaim(i));
    } else if s.thread.FillingMsg? || s.thread.FillingReply? || s.thread.Pending? {
      assert Filling(s, s.thread.idx);
    }
  }

  // The interrupt handler never waits, and a pending slot can always be taken.
  lemma HandlerNeverStuck(s: State)
    requires Reachable(s)
    ensures s.isr.pc == Writing ==> exists i :: Enabled(s, IsrWrite(i))
    ensures s.isr.pc.Flagging? ==> Enabled(s, IsrFlag)
    ensures s.isr.pc.Waking? ==> Enabled(s, IsrWake)
    ensures forall i {:trigger i in s.mbox.pend} | i in s.mbox.pend :: Enabled(s, SecureTake(i))
  {
    hide Shape, IsrOk, ThreadOk, QueueOk, HeldOk, SlotsOk, ClientsOk, HistoriesOk, NothingLost, InOrder, WindowOk, Enabled;
    ReachableInv(s);
    HandlerSteps(s);
    forall i | i in s.mbox.pend ensures Enabled(s, SecureTake(i)) {
      PendTakeable(s, i);
    }
  }

  lemma HandlerSteps(s: State)
    requires Shape(s) && IsrOk(s)
    ensures s.isr.pc == Writing ==> exists i :: Enabled(s, IsrWrite(i))
    ensures s.isr.pc.Flagging? ==> Enabled(s, IsrFlag)
    ensures s.isr.pc.Waking? ==> Enabled(s, IsrWake)
  {
    hide PhaseCount;
    if s.isr.pc == Writing {
      var i := LowestExists(s.isr.remaining);
      assert Enabled(s, IsrWrite(i));
    }
  }

  lemma PendTakeable(s: State, i: SlotIdx)
    requires Shape(s) && SlotsOk(s) && i in s.mbox.pend
    ensures Enabled(s, SecureTake(i))
  {
    hide PhaseCount, SlotOk, History;
    assert KnownSlot(s, i);
  }
}
