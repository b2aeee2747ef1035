/**
 The mailbox thread's own wake-up. Between its failed snapshot of the empty slots and
 `is_full = true` the thread can miss an interrupt pass that releases a slot. This module says
 exactly when the thread sleeps although a slot is empty, and that such a sleep can be for ever.
 */
module ThreadBuildWindow {
  import opened Histories
  import opened MailboxTypes
  import opened Wrappers
  import opened ThreadBuild
  import opened ThreadBuildInv
  import opened ThreadBuildTheorems

  // The thread sleeps past an empty slot if and only if an interrupt pass ended in the window.
  lemma SleepsPastEmptySlot(s: State)
    requires Reachable(s) && s.thread == Sleeping && !s.threadFlag && s.isr.pc == Quiet
    ensures s.mbox.empty != {} <==> s.missed
  {
    hide Shape, QueueOk, HeldOk, SlotsOk, ClientsOk, HistoriesOk, NothingLost, InOrder;
    ReachableInv(s);
  }

  // The thread sleeps, every slot is empty and nothing is under way.
  ghost predicate Abandoned(s: State) {
    && s.thread == Sleeping && !s.threadFlag && s.mbox.isFull
    && s.mbox.pend == {} && s.mbox.replied == {} && s.secure == map[] && s.isr.pc == Quiet
  }

  lemma AbandonedStep(s: State, t: Step)
    requires Abandoned(s) && Enabled(s, t) && t != ThreadOtherFlag
    ensures Abandoned(Apply(s, t))
    ensures forall id | OutstandingAt(s, id) :: OutstandingAt(Apply(s, t), id)
  {
    hide Abandoned, Apply, Enabled, OutstandingAt;
    AbandonedSteps(s, t);
    AbandonedKept(s, t);
    AbandonedCalls(s, t);
  }

  ghost predicate ByClient(t: Step) {
    t.ClientCall? || t.ClientSend? || t.ClientCheck? || t.ClientWake? || t.OtherFlag?
  }

  lemma AbandonedSteps(s: State, t: Step)
    requires Abandoned(s) && Enabled(s, t) && t != ThreadOtherFlag
    ensures ByClient(t) || t == IsrEnter
  {
  }

  lemma AbandonedKept(s: State, t: Step)
    requires Abandoned(s) && Enabled(s, t) && (ByClient(t) || t == IsrEnter)
    ensures Abandoned(Apply(s, t))
  {
  }

  lemma AbandonedCalls(s: State, t: Step)
    requires Abandoned(s) && Enabled(s, t) && (ByClient(t) || t == IsrEnter)
    ensures forall id | OutstandingAt(s, id) :: OutstandingAt(Apply(s, t), id)
  {
  }

  // An abandoned thread stays abandoned, and no outstanding call is ever answered, whatever the
  // clients, the secure side and the interrupt do, until some other source raises the thread's flag.
  lemma {:induction false} AbandonedForever(s: State, run: seq<Step>)
    requires Abandoned(s) && ValidRun(s, run) && ThreadOtherFlag !in run
    ensures Abandoned(Final(s, run))
    ensures forall id | OutstandingAt(s, id) :: OutstandingAt(Final(s, run), id)
    decreases |run|
  {
    if run != [] {
      AbandonedStep(s, run[0]);
      hide Abandoned, Apply, Enabled;
      AbandonedForever(Apply(s, run[0]), run[1..]);
    }
  }

  // ---------- any other sleep can still end ----------

  // The run raises the mailbox thread's flag with no help from outside the mailbox.
  ghost predicate Wakes(s: State, run: seq<Step>) {
    ValidRun(s, run) && ThreadOtherFlag !in run && Final(s, run).threadFlag
  }

  ghost predicate Asleep(s: State) {
    Inv(s) && s.thread == Sleeping
  }

  lemma WakesAfter(s: State, t: Step, run: seq<Step>)
    requires Enabled(s, t) && t != ThreadOtherFlag && Wakes(Apply(s, t), run)
    ensures Wakes(s, [t] + run)
  {
    hide Apply, Enabled;
    assert ([t] + run)[1..] == run;
  }

  function PassRank(s: State): nat {
    match s.isr.pc
    case Quiet => 0
    case CheckingFull => 1
    case Releasing => 2
    case Writing => 3 * |s.isr.remaining| + 2
    case Flagging(_) => 3 * |s.isr.remaining| + 1
    case Waking(_) => 3 * |s.isr.remaining|
  }

  // The next step of a pass under way.
  lemma PassStep(s: State) returns (t: Step)
    requires Asleep(s) && s.isr.pc != Quiet
    ensures Enabled(s, t) && t != ThreadOtherFlag
    ensures Asleep(Apply(s, t)) && PassRank(Apply(s, t)) < PassRank(s)
    ensures Apply(s, t).isr.pc == Quiet ==> Apply(s, t).threadFlag
  {
    t := PassEnabled(s);
    PassAdvances(s, t);
    assert Asleep(Apply(s, t)) by {
      hide Shape, IsrOk, ThreadOk, QueueOk, HeldOk, SlotsOk, ClientsOk, HistoriesOk, WindowOk, Apply, Enabled;
      StepInv(s, t);
    }
  }

  ghost predicate ByHandler(t: Step) {
    t.IsrWrite? || t == IsrFlag || t == IsrWake || t == IsrRelease || t == IsrCheckFull
  }

  lemma PassEnabled(s: State) returns (t: Step)
    requires Inv(s) && s.isr.pc != Quiet
    ensures ByHandler(t) && Enabled(s, t)
  {
    hide ThreadOk, QueueOk, HeldOk, SlotsOk, ClientsOk, HistoriesOk, WindowOk, PhaseCount;
    match s.isr.pc {
      case Writing =>
        var i := LowestExists(s.isr.remaining);
        t := IsrWrite(i);
      case Flagging(_) => t := IsrFlag;
      case Waking(_) => t := IsrWake;
      case Releasing => t := IsrRelease;
      case CheckingFull => t := IsrCheckFull;
    }
  }

  lemma PassAdvances(s: State, t: Step)
    requires Inv(s) && s.thread == Sleeping && ByHandler(t) && Enabled(s, t)
    ensures Apply(s, t).thread == Sleeping && PassRank(Apply(s, t)) < PassRank(s)
    ensures Apply(s, t).isr.pc == Quiet ==> Apply(s, t).threadFlag
  {
    hide Shape, QueueOk, HeldOk, SlotsOk, ClientsOk, HistoriesOk, WindowOk, PassRank, Apply;
    if t.IsrWrite? || t == IsrFlag {
      DeliverAdvances(s, t);
    } else if t == IsrWake {
      WakeAdvances(s);
    } else {
      EndAdvances(s, t);
    }
  }

  lemma DeliverAdvances(s: State, t: Step)
    requires Enabled(s, t) && s.thread == Sleeping && (t.IsrWrite? || t == IsrFlag)
    ensures Apply(s, t).thread == Sleeping && PassRank(Apply(s, t)) < PassRank(s) && Apply(s, t).isr.pc != Quiet
  {
    var s' := Apply(s, t);
    assert s'.isr.remaining == s.isr.remaining && s'.thread == s.thread;
    assert s'.isr.pc == if t == IsrFlag then Waking(s.isr.pc.idx) else Flagging(t.idx);
  }

  lemma WakeAdvances(s: State)
    requires Enabled(s, IsrWake) && s.thread == Sleeping && s.isr.pc.idx in s.isr.remaining
    ensures Apply(s, IsrWake).thread == Sleeping && Apply(s, IsrWake).isr.pc != Quiet
    ensures PassRank(Apply(s, IsrWake)) < PassRank(s)
  {
    assert |s.isr.remaining - {s.isr.pc.idx}| == |s.isr.remaining| - 1;
  }

  lemma EndAdvances(s: State, t: Step)
    requires Enabled(s, t) && s.thread == Sleeping && s.mbox.isFull && (t == IsrRelease || t == IsrCheckFull)
    ensures Apply(s, t).thread == Sleeping && PassRank(Apply(s, t)) < PassRank(s)
    ensures Apply(s, t).isr.pc == Quiet ==> Apply(s, t).threadFlag
  {
  }

  lemma {:induction false} FinishPass(s: State) returns (run: seq<Step>)
    requires Asleep(s) && s.isr.pc != Quiet
    ensures Wakes(s, run)
    decreases PassRank(s)
  {
    hide Asleep, Apply, Enabled, PassRank;
    var t := PassStep(s);
    var s' := Apply(s, t);
    if s'.isr.pc == Quiet {
      EmptyRun(s, t);
      run := [t];
    } else {
      run := FinishPass(s');
      WakesAfter(s, t, run);
      run := [t] + run;
    }
  }

  lemma WakeByReply(s: State) returns (run: seq<Step>)
    requires Asleep(s) && s.isr.pc == Quiet && s.mbox.replied != {}
    ensures Wakes(s, run)
  {
    hide Inv, Wakes;
    StepInv(s, IsrEnter);
    run := FinishPass(Apply(s, IsrEnter));
    WakesAfter(s, IsrEnter, run);
    run := [IsrEnter] + run;
  }

  lemma WakeByAnswer(s: State, i: SlotIdx) returns (run: seq<Step>)
    requires Asleep(s) && s.isr.pc == Quiet && i in s.secure && s.secure[i] == Answered
    ensures Wakes(s, run)
  {
    hide Inv, Wakes;
    StepInv(s, SecureReply(i));
    run := WakeByReply(Apply(s, SecureReply(i)));
    WakesAfter(s, SecureReply(i), run);
    run := [SecureReply(i)] + run;
  }

  lemma WakeByHandling(s: State, i: SlotIdx) returns (run: seq<Step>)
    requires Asleep(s) && s.isr.pc == Quiet && i in s.secure
    ensures Wakes(s, run)
  {
    hide Wakes;
    if s.secure[i] == Answered {
      run := WakeByAnswer(s, i);
    } else {
      InFlightReplies(s, i);
      hide Inv, Apply, Enabled;
      AnswerStep(s, i);
      StepInv(s, SecureAnswer(i, 0));
      run := WakeByAnswer(Apply(s, SecureAnswer(i, 0)), i);
      WakesAfter(s, SecureAnswer(i, 0), run);
      run := [SecureAnswer(i, 0)] + run;
    }
  }

  lemma AnswerStep(s: State, i: SlotIdx)
    requires SlotInFlight(s, i) && i in s.secure && s.secure[i] == Handling
    ensures Enabled(s, SecureAnswer(i, 0))
    ensures
      var s' := Apply(s, SecureAnswer(i, 0));
      s'.thread == s.thread && s'.isr == s.isr && i in s'.secure && s'.secure[i] == Answered
  {
  }

  lemma TakeStep(s: State, i: SlotIdx)
    requires SlotInFlight(s, i) && i in s.mbox.pend
    ensures Enabled(s, SecureTake(i))
    ensures
      var s' := Apply(s, SecureTake(i));
      s'.thread == s.thread && s'.isr == s.isr && i in s'.secure
  {
  }

  ghost predicate SlotInFlight(s: State, i: SlotIdx) {
    i in s.mbox.slots && s.mbox.slots[i].reply.Some?
  }

  lemma InFlightReplies(s: State, i: SlotIdx)
    requires Inv(s) && (i in s.secure || i in s.mbox.pend)
    ensures SlotInFlight(s, i)
  {
    hide ThreadOk, QueueOk, HeldOk, ClientsOk, HistoriesOk, WindowOk, PhaseCount, SlotOk;
    assert KnownSlot(s, i);
  }

  lemma WakeByPend(s: State, i: SlotIdx) returns (run: seq<Step>)
    requires Asleep(s) && s.isr.pc == Quiet && i in s.mbox.pend
    ensures Wakes(s, run)
  {
    hide Wakes;
    InFlightReplies(s, i);
    hide Inv, Apply, Enabled;
    TakeStep(s, i);
    StepInv(s, SecureTake(i));
    run := WakeByHandling(Apply(s, SecureTake(i)), i);
    WakesAfter(s, SecureTake(i), run);
    run := [SecureTake(i)] + run;
  }

  lemma StillWakes(s: State) returns (run: seq<Step>)
    requires Asleep(s) && !s.threadFlag && !Abandoned(s)
    ensures Wakes(s, run)
  {
    hide Wakes, Shape, IsrOk, QueueOk, HeldOk, SlotsOk, ClientsOk, HistoriesOk, WindowOk;
    if s.isr.pc != Quiet {
      run := FinishPass(s);
    } else if s.mbox.replied != {} {
      run := WakeByReply(s);
    } else if s.secure != map[] {
      var i :| i in s.secure;
      run := WakeByHandling(s, i);
    } else {
      var i :| i in s.mbox.pend;
      run := WakeByPend(s, i);
    }
  }

  // A sleeping mailbox thread can still be woken from inside the mailbox if and only if something is
  // under way: a slot is pending, with the secure side or replied, or a pass of the handler runs.
  lemma CanWakeExactly(s: State)
    requires Reachable(s) && s.thread == Sleeping && !s.threadFlag
    ensures (exists run :: Wakes(s, run)) <==> !Abandoned(s)
  {
    hide Inv, NothingLost, InOrder;
    ReachableInv(s);
    if Abandoned(s) {
      forall run ensures !Wakes(s, run) {
        if ValidRun(s, run) && ThreadOtherFlag !in run {
          AbandonedForever(s, run);
        }
      }
    } else {
      hide Abandoned;
      var run := StillWakes(s);
    }
  }

  // ---------- the abandoned state is reachable ----------

  lemma Then(s: State, t: Step)
    requires Reachable(s) && Enabled(s, t)
    ensures Reachable(Apply(s, t))
  {
    hide Apply, Enabled, Init;
    var s0, run :| Init(s0) && ValidRun(s0, run) && s == Final(s0, run);
    RunThen(s0, run, t);
  }

  const M: Msg := Msg(4, [], 0)

  function Start(): State {
    var k := Client(Idle, 0, M, 0, false, false, 0);
    var slot := Slot(M, 0, None, None, None);
    State({0}, map[0 := k, 1 := k], [], Receiving, None, false,
          Mailbox({0}, {}, {}, map[0 := slot], false), map[], Isr(Quiet, {}, {}, {}), [], false, false)
  }

  lemma StartReachable()
    ensures Reachable(Start())
  {
    assert Init(Start()) && ValidRun(Start(), []) && Final(Start(), []) == Start();
  }

  // Client c enters its call and queues its request.
  lemma Enter(s: State, c: Task) returns (s': State)
    requires Reachable(s) && c in s.clients && s.clients[c].pc == Idle && |s.queue| < |s.all|
    ensures Reachable(s')
    ensures
      var k := s.clients[c].(pc := Checking, msg := M, replyCell := 0, wokenFlag := false);
      var a := CallId(c, k.serial);
      s' == s.(clients := s.clients[c := k], queue := s.queue + [Request(M.callType, a, M.clientId, c, a, a)],
               log := s.log + [Accept(a, M)])
  {
    hide Reachable;
    Then(s, ClientCall(c, M, true, true, 0));
    var s1 := DoClientCall(s, c, M, true, true, 0);
    Then(s1, ClientSend(c));
    s' := DoClientSend(s1, c);
    assert s'.clients == s.clients[c := s'.clients[c]];
  }

  // The only slot, 0, is empty: the thread claims it for the first queued request.
  lemma Claim(s: State) returns (s': State)
    requires Reachable(s) && s.thread == Receiving && s.queue != [] && s.mbox.empty == {0}
    ensures Reachable(s')
    ensures s' == s.(thread := FillingMsg(0), req := Some(s.queue[0]), queue := s.queue[1..],
                     mbox := s.mbox.(empty := {}))
  {
    hide Reachable;
    Then(s, ThreadReceive);
    var s1 := DoThreadReceive(s);
    Then(s1, ThreadSnapshot);
    var s2 := DoThreadSnapshot(s1);
    Then(s2, ThreadClaim(0));
    s' := DoThreadClaim(s2, 0);
    assert s'.mbox.empty == {};
  }

  // The thread fills slot 0 and marks it pending.
  lemma Fill(s: State) returns (s': State)
    requires Reachable(s) && s.thread == FillingMsg(0) && s.req.Some? && 0 in s.mbox.slots
    ensures Reachable(s')
    ensures s' == s.(thread := Receiving, req := None, mbox := s'.mbox, log := s'.log, wild := s'.wild)
    ensures s'.mbox == s.mbox.(pend := s.mbox.pend + {0}, slots := s'.mbox.slots)
    ensures s'.mbox.slots.Keys == s.mbox.slots.Keys
    ensures s'.mbox.slots[0].owner == Some(s.req.value.owner) && s'.mbox.slots[0].reply == Some(s.req.value.reply)
    ensures s'.mbox.slots[0].wokenFlag == Some(s.req.value.wokenFlag)
  {
    hide Reachable;
    Then(s, ThreadFillMsg);
    var s1 := DoThreadFillMsg(s);
    Then(s1, ThreadFillReply);
    var s2 := DoThreadFillReply(s1);
    Then(s2, ThreadPend);
    s' := DoThreadPend(s2);
  }

  // The secure side answers slot 0.
  lemma AnswerSlot(s: State) returns (s': State)
    requires Reachable(s) && s.mbox.pend == {0} && s.secure == map[] && s.mbox.replied == {}
    requires 0 in s.mbox.slots && s.mbox.slots[0].reply.Some?
    ensures Reachable(s') && s' == s.(mbox := s'.mbox, log := s'.log)
    ensures s'.mbox == s.mbox.(pend := {}, replied := {0}, slots := s'.mbox.slots)
    ensures s'.mbox.slots.Keys == s.mbox.slots.Keys && s'.mbox.slots[0] == s.mbox.slots[0].(returnVal := 7)
  {
    hide Reachable;
    Then(s, SecureTake(0));
    var s1 := DoSecureTake(s, 0);
    Then(s1, SecureAnswer(0, 7));
    var s2 := DoSecureAnswer(s1, 0, 7);
    Then(s2, SecureReply(0));
    s' := DoSecureReply(s2, 0);
    assert s'.secure == map[];
  }

  // The interrupt handler takes its snapshot and delivers slot 0 to client 0.
  lemma DeliverFirst(s: State) returns (s': State)
    requires Reachable(s) && s.isr.pc == Quiet && s.mbox.replied == {0} && 0 in s.mbox.slots && 0 in s.clients
    requires s.mbox.slots[0].reply == Some(CallId(0, 0)) && s.mbox.slots[0].wokenFlag == Some(CallId(0, 0))
    ensures Reachable(s') && s'.isr == Isr(Waking(0), {0}, {0}, {})
    ensures s' == s.(clients := s'.clients, isr := s'.isr, mbox := s.mbox.(replied := {}), log := s'.log, wild := s'.wild)
    ensures 0 in s'.clients && s'.clients == s.clients[0 := s'.clients[0]]
  {
    hide Reachable;
    Then(s, IsrEnter);
    var s1 := DoIsrEnter(s);
    Then(s1, IsrWrite(0));
    var s2 := DoIsrWrite(s1, 0);
    Then(s2, IsrFlag);
    s' := DoIsrFlag(s2);
    assert s'.mbox.replied == {};
  }

  // The pass ends while the thread is about to set is_full.
  lemma EndInWindow(s: State) returns (s': State)
    requires Reachable(s) && s.isr == Isr(Waking(0), {0}, {0}, {}) && 0 in s.mbox.slots && 0 in s.clients
    requires s.mbox.slots[0].owner == Some(0) && s.thread == MarkingFull && !s.mbox.isFull
    ensures Reachable(s') && s'.isr.pc == Quiet
    ensures s' == s.(clients := s'.clients, isr := s'.isr, mbox := s.mbox.(empty := s.mbox.empty + {0}), missed := true)
    ensures 0 in s'.clients && s'.clients == s.clients[0 := s'.clients[0]]
  {
    hide Reachable;
    var s2 := ReleaseInWindow(s);
    Then(s2, IsrCheckFull);
    s' := DoIsrCheckFull(s2);
  }

  lemma ReleaseInWindow(s: State) returns (s': State)
    requires Reachable(s) && s.isr == Isr(Waking(0), {0}, {0}, {}) && 0 in s.mbox.slots && 0 in s.clients
    requires s.mbox.slots[0].owner == Some(0)
    ensures Reachable(s') && s'.isr.pc == CheckingFull
    ensures s' == s.(clients := s'.clients, isr := s'.isr, mbox := s.mbox.(empty := s.mbox.empty + {0}))
    ensures 0 in s'.clients && s'.clients == s.clients[0 := s'.clients[0]]
  {
    hide Reachable;
    Then(s, IsrWake);
    var s1 := DoIsrWake(s);
    assert s1.isr.remaining == {} && s1.isr.complete == {0};
    Then(s1, IsrRelease);
    s' := DoIsrRelease(s1);
  }

  // Client 0 is answered in the only slot, and client 1 has queued its request.
  ghost predicate OneAnsweredOneQueued(s: State) {
    && s.all == {0} && s.clients.Keys == {0, 1} && s.thread == Receiving && s.req == None
    && s.mbox.pend == {} && s.secure == map[]
    && s.mbox.empty == {} && s.mbox.replied == {0} && !s.mbox.isFull && !s.missed && s.isr == Isr(Quiet, {}, {}, {})
    && s.mbox.slots.Keys == {0} && s.mbox.slots[0].owner == Some(0)
    && s.mbox.slots[0].reply == Some(CallId(0, 0)) && s.mbox.slots[0].wokenFlag == Some(CallId(0, 0))
    && |s.queue| == 1 && s.queue[0].reply == CallId(1, 0)
    && s.clients[1].pc == Checking && s.clients[1].serial == 0 && !s.clients[1].wokenFlag && !s.threadFlag
  }

  lemma OneAnsweredOneQueuedReachable() returns (s: State)
    ensures Reachable(s) && OneAnsweredOneQueued(s)
  {
    hide Reachable, Apply;
    StartReachable();
    var s1 := Enter(Start(), 0);
    var s2 := Claim(s1);
    s2 := Fill(s2);
    var s3 := AnswerSlot(s2);
    s := Enter(s3, 1);
  }

  // The thread takes the request and finds no empty slot.
  lemma ReceiveInVain(s: State) returns (s': State)
    requires Reachable(s) && s.thread == Receiving && s.queue != [] && s.mbox.empty == {}
    ensures Reachable(s')
    ensures s' == s.(thread := MarkingFull, missed := false, req := Some(s.queue[0]), queue := s.queue[1..])
  {
    hide Reachable, Apply;
    Then(s, ThreadReceive);
    ApplyReceive(s);
    var s1 := DoThreadReceive(s);
    Then(s1, ThreadSnapshot);
    ApplySnapshot(s1);
    s' := DoThreadSnapshot(s1);
  }

  // With one slot and two clients a run ends in an abandoned state that leaves a call outstanding.
  lemma AbandonedReachable() returns (s: State)
    ensures Reachable(s) && Abandoned(s) && s.mbox.empty == {0} && OutstandingAt(s, CallId(1, 0))
  {
    hide Reachable, Apply;
    var s4 := OneAnsweredOneQueuedReachable();
    var s6 := ReceiveInVain(s4);
    var s7 := DeliverFirst(s6);
    s7 := EndInWindow(s7);
    Then(s7, ThreadMarkFull);
    s := s7.(thread := Sleeping, mbox := s7.mbox.(isFull := true));
    assert Reachable(s) by { ApplyMarkFull(s7); }
  }

  lemma ApplyReceive(s: State)
    requires Enabled(s, ThreadReceive)
    ensures Apply(s, ThreadReceive) == DoThreadReceive(s)
  {}

  lemma ApplySnapshot(s: State)
    requires Enabled(s, ThreadSnapshot)
    ensures Apply(s, ThreadSnapshot) == DoThreadSnapshot(s)
  {}

  lemma ApplyMarkFull(s: State)
    requires Enabled(s, ThreadMarkFull)
    ensures Apply(s, ThreadMarkFull) == s.(thread := Sleeping, mbox := s.mbox.(isFull := true))
  {}
}
