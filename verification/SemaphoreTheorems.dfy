/** What holds of every run of the semaphore build, and exactly when two tasks can own one slot. */
module SemaphoreTheorems {
  import opened Histories
  import opened MailboxTypes
  import opened Wrappers
  import opened SemaphoreBuild
  import opened SemaphorePermits
  import opened SemaphoreOwnership

  ghost predicate ReachableFrom(s0: State, s: State) {
    exists run :: ValidRun(s0, run) && s == Final(s0, run)
  }

  lemma {:induction false} RunOwn(s: State, run: seq<Step>)
    requires OwnInv(s) && NoRace(s) && ValidRun(s, run)
    ensures OwnInv(Final(s, run))
    decreases |run|
  {
    hide OwnInv;
    if run != [] {
      StepOwn(s, run[0]);
      StepConfig(s, run[0]);
      hide Apply, Enabled;
      RunOwn(Apply(s, run[0]), run[1..]);
    }
  }

  lemma ReachableOwn(s0: State, s: State)
    requires Init(s0) && NoRace(s0) && ReachableFrom(s0, s)
    ensures OwnInv(s)
  {
    hide OwnInv, NoRace, Init;
    var run :| ValidRun(s0, run) && s == Final(s0, run);
    InitOwn(s0);
    RunOwn(s0, run);
  }

  // A call at its end returns success and the value the secure side produced for it.
  lemma LeavingCallReturns(s0: State, s: State, c: Task)
    requires Init(s0) && NoRace(s0) && ReachableFrom(s0, s) && Enabled(s, ReleasePermit(c))
    ensures
      var h := History(s.log, CallId(c, s.clients[c].serial));
      && Apply(s, ReleasePermit(c)).clients[c].ret == SUCCESS
      && |h| == 4 && Canonical(h) && h[1].msg == s.clients[c].msg && s.clients[c].replyCell == h[2].value
  {
    hide History, Exclusive, Alone, FreeOk, IsrOk, InRange, PastsOk, Init;
    ReachableOwn(s0, s);
    assert ClientOk(s, c);
    assert PcOk(s.clients[c].pc, s.all);
  }

  lemma HistoriesAreCanonical(s0: State, s: State, id: CallId)
    requires Init(s0) && NoRace(s0) && ReachableFrom(s0, s)
    ensures Canonical(History(s.log, id))
    ensures id.task in s.clients && id.serial < s.clients[id.task].serial ==> |History(s.log, id)| == 4
  {
    hide History, Exclusive, Alone, FreeOk, IsrOk, InRange, ClientsOk, PermitInv, Canonical, Init;
    ReachableOwn(s0, s);
  }

  // A task asleep in its slot with its thread flag down: its request is in exactly one place, or its
  // slot is flagged and the interrupt handler is just about to wake it.
  lemma NoLostWakeUp(s0: State, s: State, c: Task)
    requires Init(s0) && NoRace(s0) && ReachableFrom(s0, s)
    requires AtSlot(s, c) && s.clients[c].pc.Waiting? && !s.clients[c].threadFlag
    ensures
      var i := s.clients[c].pc.idx;
      if s.slots[i].isWoken then s.isr == Waking(i) && s.slots[i].owner == Some(c)
      else B(i in s.pend) + B(i in s.secure) + B(i in s.replied) + B(i in s.remaining && s.isr != Waking(i)) == 1
  {
    hide History, Exclusive, Alone, FreeOk, IsrOk, InRange, PastsOk, PermitInv, Canonical, Init;
    ReachableOwn(s0, s);
    assert ClientOk(s, c);
  }

  // ---------- when two tasks own one slot ----------

  lemma Then(s0: State, s: State, t: Step)
    requires ReachableFrom(s0, s) && Enabled(s, t)
    ensures ReachableFrom(s0, Apply(s, t))
  {
    hide Apply, Enabled;
    var run :| ValidRun(s0, run) && s == Final(s0, run);
    RunThen(s0, run, t);
  }

  // Task c enters, takes a permit and snapshots the empty slots.
  lemma EnterAndSnapshot(s0: State, s: State, c: Task, msg: Msg) returns (s': State)
    requires ReachableFrom(s0, s) && c in s.clients && s.clients[c].pc == Idle
    requires s.permits > 0 && s.empty != {} && !s.atomicAcquire
    ensures ReachableFrom(s0, s')
    ensures s' == s.(
      clients := s.clients[c := s.clients[c].(pc := Claiming(s.empty), msg := msg, replyBuf := 0)], permits := s.permits - 1)
  {
    hide ReachableFrom;
    Then(s0, s, Call(c, msg, true, true));
    var s1 := DoCall(s, c, msg, true, true);
    Then(s0, s1, AcquirePermit(c));
    var s2 := DoAcquire(s1, c);
    Then(s0, s2, Snapshot(c));
    s' := DoSnapshot(s2, c);
    assert s'.clients == s.clients[c := s'.clients[c]];
  }

  // With two slots and the split acquire, tasks a and b both claim the lowest slot.
  lemma BothClaim(s0: State, a: Task, b: Task, ma: Msg, mb: Msg) returns (s: State, i: SlotIdx)
    requires Init(s0) && !NoRace(s0) && a in s0.clients && b in s0.clients && a != b
    ensures ReachableFrom(s0, s) && i in s.slots
    ensures a in s.clients && s.clients[a].pc == FillingMsg(i) && s.clients[a].msg == ma && s.clients[a].serial == 0
    ensures b in s.clients && s.clients[b].pc == FillingMsg(i) && s.clients[b].msg == mb
    ensures s.log == [] && s.clients[b].serial == 0
  {
    hide ReachableFrom;
    assert ReachableFrom(s0, s0) by { Here(s0); }
    assert |s0.all| > 1;
    var s1 := EnterAndSnapshot(s0, s0, a, ma);
    var s2 := EnterAndSnapshot(s0, s1, b, mb);
    i := LowestExists(s0.all);
    Then(s0, s2, Claim(a, i));
    var s3 := DoClaim(s2, a, i);
    Then(s0, s3, Claim(b, i));
    s := DoClaim(s3, b, i);
  }

  lemma Here(s0: State)
    ensures ReachableFrom(s0, s0)
  {
    assert ValidRun(s0, []) && Final(s0, []) == s0;
  }

  // Two tasks own one slot in some run if and only if there are two tasks, two slots and the acquire
  // is split as in the code.
  lemma ExclusiveExactlyWhen(s0: State)
    requires Init(s0)
    ensures (forall s | ReachableFrom(s0, s) :: Exclusive(s)) <==> NoRace(s0)
  {
    hide ReachableFrom, AtMostOneTask;
    if NoRace(s0) {
      forall s | ReachableFrom(s0, s) ensures Exclusive(s) {
        ReachableOwn(s0, s);
      }
    } else {
      var a, b := TwoTasks(s0);
      var s, i := BothClaim(s0, a, b, s0.clients[a].msg, s0.clients[b].msg);
      assert HoldsSlot(s, a, i) && HoldsSlot(s, b, i);
    }
  }

  lemma TwoTasks(s: State) returns (a: Task, b: Task)
    requires !AtMostOneTask(s)
    ensures a in s.clients && b in s.clients && a != b
  {
    a, b :| a in s.clients.Keys && b in s.clients.Keys && a != b;
  }

  // In such a run the secure side is handed another task's message in the name of the first.
  lemma ForeignMessagePended(s0: State, a: Task, b: Task, ma: Msg, mb: Msg) returns (s: State, i: SlotIdx)
    requires Init(s0) && !NoRace(s0) && a in s0.clients && b in s0.clients && a != b
    ensures ReachableFrom(s0, s) && a in s.clients && s.clients[a].msg == ma && s.clients[a].pc == Waiting(i)
    ensures s.log == [Pend(CallId(a, 0), i, mb)] && s.clients[a].serial == 0
    ensures i in s.pend && i in s.slots && s.slots[i].stamp == CallId(b, 0)
  {
    hide ReachableFrom, Init;
    s, i := BothClaim(s0, a, b, ma, mb);
    Then(s0, s, FillMsg(a));
    s := DoFillMsg(s, a);
    Then(s0, s, FillMsg(b));
    s := DoFillMsg(s, b);
    Then(s0, s, SetOwner(a));
    s := DoSetOwner(s, a);
    Then(s0, s, PendSlot(a));
    s := DoPend(s, a);
  }

  // ---------- whose message is pended, exactly ----------

  // The messages pended for the calls under way are the calls' own.
  ghost predicate PendsOwn(s: State) {
    forall k | 0 <= k < |s.log| && s.log[k].Pend? :: OwnPend(s, s.log[k])
  }

  ghost predicate OwnPend(s: State, e: Event)
    requires e.Pend?
  {
    e.id.task in s.clients && e.id.serial == s.clients[e.id.task].serial ==> e.msg == s.clients[e.id.task].msg
  }

  lemma OwnPendInRun(s0: State, s: State, k: nat)
    requires Init(s0) && NoRace(s0) && ReachableFrom(s0, s) && k < |s.log| && s.log[k].Pend?
    ensures OwnPend(s, s.log[k])
  {
    hide History, Exclusive, Alone, FreeOk, IsrOk, InRange, PastsOk, PermitInv, Init, NoRace, Places, Stage;
    ReachableOwn(s0, s);
    InHistory(s.log, k);
    var id := s.log[k].id;
    if id.task in s.clients && id.serial == s.clients[id.task].serial {
      assert ClientOk(s, id.task);
    }
  }

  // Every call's pended message is its own in every run if and only if no two tasks can race for a
  // slot; and so for the calls' histories as a whole.
  lemma OwnMessageExactlyWhen(s0: State)
    requires Init(s0)
    ensures (forall s | ReachableFrom(s0, s) :: PendsOwn(s)) <==> NoRace(s0)
  {
    hide ReachableFrom, AtMostOneTask, OwnPend;
    if NoRace(s0) {
      forall s | ReachableFrom(s0, s) ensures PendsOwn(s) {
        forall k | 0 <= k < |s.log| && s.log[k].Pend? ensures OwnPend(s, s.log[k]) {
          OwnPendInRun(s0, s, k);
        }
      }
    } else {
      var a, b := TwoTasks(s0);
      var ma, mb := Msg(0, [], 0), Msg(1, [], 0);
      var s, i := ForeignMessagePended(s0, a, b, ma, mb);
      ForeignIsNotOwn(s, a, i, mb);
    }
  }

  lemma ForeignIsNotOwn(s: State, a: Task, i: SlotIdx, mb: Msg)
    requires a in s.clients && s.clients[a].serial == 0 && s.clients[a].msg != mb
    requires s.log == [Pend(CallId(a, 0), i, mb)]
    ensures !PendsOwn(s)
  {
    assert s.log[0].Pend? && !OwnPend(s, s.log[0]);
  }

  lemma CanonicalExactlyWhen(s0: State)
    requires Init(s0)
    ensures (forall s, id | ReachableFrom(s0, s) :: Canonical(History(s.log, id))) <==> NoRace(s0)
  {
    hide ReachableFrom, AtMostOneTask, History;
    if NoRace(s0) {
      forall s, id | ReachableFrom(s0, s) ensures Canonical(History(s.log, id)) {
        HistoriesAreCanonical(s0, s, id);
      }
    } else {
      var a, b := TwoTasks(s0);
      var s, i := ForeignMessagePended(s0, a, b, s0.clients[a].msg, s0.clients[b].msg);
      Then(s0, s, SecureTake(i));
      var s' := DoSecureTake(s, i);
      assert s' == Apply(s, SecureTake(i)) && ReachableFrom(s0, s');
      assert s'.log == [Pend(CallId(a, 0), i, s0.clients[b].msg)] + [Take(CallId(b, 0), i, s.slots[i].msg)];
      TakenUnpended(s'.log, CallId(a, 0), CallId(b, 0));
      assert !Canonical(History(s'.log, CallId(b, 0)));
    }
  }

  // The second call's message is taken though that call pended none.
  lemma TakenUnpended(log: seq<Event>, a: CallId, b: CallId)
    requires |log| == 2 && log[0].id == a && log[1].id == b && a != b && log[1].Take?
    ensures !Canonical(History(log, b))
  {
    assert log[..1][..0] == [];
    assert History(log[..1], b) == [];
    assert History(log, b) == [log[1]];
  }
}
