/**
 The semaphore build: whom the owner field of a slot names, and so whom the handler wakes up; and
 that a sleeping task goes on only after its thread flag was raised, which uses the flag up.
 */
module SemaphoreOwner {
  import opened MailboxTypes
  import opened Wrappers
  import opened SemaphoreBuild
  import opened SemaphorePermits
  import opened SemaphoreOwnership
  import opened SemaphoreTheorems

  // Between recording itself as the owner of its slot and clearing that record.
  predicate OnRecord(pc: ClientPc) {
    pc.Pending? || pc.Waiting? || pc.Checking? || pc.Reading? || pc.Disowning?
  }

  // The owner a slot names is a task that works on this very slot.
  ghost predicate OwnersKnown(s: State) {
    forall i | i in s.slots && s.slots[i].owner.Some? ::
      var c := s.slots[i].owner.value;
      c in s.clients && OnRecord(s.clients[c].pc) && s.clients[c].pc.idx == i
  }

  lemma ApproachOwners(s: State, t: Step)
    requires OwnersKnown(s) && Enabled(s, t)
    requires Approaches(t) || Claims(t) || t.ReleasePermit?
    ensures OwnersKnown(Apply(s, t))
  {
  }

  lemma RecordOwners(s: State, t: Step)
    requires OwnersKnown(s) && Enabled(s, t) && (t.FillMsg? || t.SetOwner? || t.Disown?)
    ensures OwnersKnown(Apply(s, t))
  {
  }

  lemma WaitOwners(s: State, t: Step)
    requires OwnersKnown(s) && Enabled(s, t)
    requires t.PendSlot? || t.Wake? || t.Check? || t.Read? || t.Free?
    ensures OwnersKnown(Apply(s, t))
  {
  }

  lemma OnSlotOwners(s: State, t: Step)
    requires OwnersKnown(s) && Enabled(s, t) && (WorksOnSlot(t) || t.PendSlot? || t.Free?)
    ensures OwnersKnown(Apply(s, t))
  {
    hide Apply, Enabled, OwnersKnown;
    if t.FillMsg? || t.SetOwner? || t.Disown? {
      RecordOwners(s, t);
    } else {
      WaitOwners(s, t);
    }
  }

  lemma OffClientOwners(s: State, t: Step)
    requires OwnersKnown(s) && Enabled(s, t) && OffClient(t)
    ensures OwnersKnown(Apply(s, t))
  {
  }

  lemma {:induction false} RunOwners(s: State, run: seq<Step>)
    requires OwnersKnown(s) && ValidRun(s, run)
    ensures OwnersKnown(Final(s, run))
    decreases |run|
  {
    hide Apply, Enabled, OwnersKnown;
    if run != [] {
      var t := run[0];
      if OffClient(t) {
        OffClientOwners(s, t);
      } else if WorksOnSlot(t) || t.PendSlot? || t.Free? {
        OnSlotOwners(s, t);
      } else {
        ApproachOwners(s, t);
      }
      RunOwners(Apply(s, t), run[1..]);
    }
  }

  // In every run of every configuration, even one with a race, the handler wakes up only tasks that
  // are inside a call and work on the slot it delivers.
  lemma WakesItsWorker(s0: State, s: State, i: SlotIdx)
    requires Init(s0) && ReachableFrom(s0, s) && i in s.slots && s.slots[i].owner.Some?
    ensures
      var c := s.slots[i].owner.value;
      c in s.clients && OnRecord(s.clients[c].pc) && s.clients[c].pc.idx == i
  {
    var run :| ValidRun(s0, run) && s == Final(s0, run);
    RunOwners(s0, run);
  }

  lemma WorkersSlotIsTaken(s: State, c: Task)
    requires OwnInv(s) && c in s.clients && s.clients[c].pc.HasSlot()
    ensures s.clients[c].pc.idx !in s.empty
  {
    hide Exclusive, Alone, FreeOk, IsrOk, InRange, PastsOk, OwnerOk, IdlerOk;
    assert ClientOk(s, c);
  }

  // Without a race an empty slot names no owner.
  lemma EmptySlotHasNoOwner(s0: State, s: State, i: SlotIdx)
    requires Init(s0) && NoRace(s0) && ReachableFrom(s0, s) && i in s.slots && i in s.empty
    ensures s.slots[i].owner == None
  {
    hide NoRace, Init, OwnInv, ReachableFrom;
    ReachableOwn(s0, s);
    if s.slots[i].owner.Some? {
      WakesItsWorker(s0, s, i);
      WorkersSlotIsTaken(s, s.slots[i].owner.value);
    }
  }

  // ---------- sleeping and waking ----------

  // The steps that raise the thread flag of c: an event from outside, or the handler's wake-up of the
  // owner of a slot.
  predicate Raises(s: State, t: Step, c: Task) {
    || t == OtherFlag(c)
    || (t == IsrWake && s.isr.Waking? && s.isr.idx in s.slots && s.slots[s.isr.idx].owner == Some(c))
  }

  // No step of the run raises the flag.
  predicate Undisturbed(s: State, run: seq<Step>, c: Task)
    requires ValidRun(s, run)
    decreases |run|
  {
    run == [] || (!Raises(s, run[0], c) && Undisturbed(Apply(s, run[0]), run[1..], c))
  }

  ghost predicate StaysDown(s: State, s': State, c: Task)
    requires c in s.clients
  {
    && c in s'.clients && !s'.clients[c].threadFlag
    && (s.clients[c].pc.Waiting? ==> s'.clients[c].pc == s.clients[c].pc)
  }

  lemma ApproachDown(s: State, t: Step, c: Task)
    requires c in s.clients && !s.clients[c].threadFlag && Enabled(s, t) && !Raises(s, t, c)
    requires Approaches(t) || Claims(t) || t.ReleasePermit?
    ensures t != Wake(c) && StaysDown(s, Apply(s, t), c)
  {
  }

  lemma OnSlotDown(s: State, t: Step, c: Task)
    requires c in s.clients && !s.clients[c].threadFlag && Enabled(s, t) && !Raises(s, t, c)
    requires WorksOnSlot(t) || t.PendSlot? || t.Free?
    ensures t != Wake(c) && StaysDown(s, Apply(s, t), c)
  {
  }

  lemma OffClientDown(s: State, t: Step, c: Task)
    requires c in s.clients && !s.clients[c].threadFlag && Enabled(s, t) && !Raises(s, t, c)
    requires OffClient(t)
    ensures t != Wake(c) && StaysDown(s, Apply(s, t), c)
  {
  }

  // With its flag down and nobody raising it, a task does not wake up, however long the run.
  lemma {:induction false} SleepsUntilFlagged(s: State, run: seq<Step>, c: Task)
    requires c in s.clients && !s.clients[c].threadFlag && ValidRun(s, run) && Undisturbed(s, run, c)
    ensures Wake(c) !in run
    ensures StaysDown(s, Final(s, run), c)
    decreases |run|
  {
    hide Apply, Enabled, Raises;
    if run != [] {
      var t := run[0];
      if OffClient(t) {
        OffClientDown(s, t, c);
      } else if WorksOnSlot(t) || t.PendSlot? || t.Free? {
        OnSlotDown(s, t, c);
      } else {
        ApproachDown(s, t, c);
      }
      SleepsUntilFlagged(Apply(s, t), run[1..], c);
      assert run == [t] + run[1..];
    }
  }

  // Between two wake-ups of the same task somebody raised its flag.
  lemma OneWakePerFlag(s: State, run: seq<Step>, c: Task)
    requires Enabled(s, Wake(c)) && ValidRun(Apply(s, Wake(c)), run) && Wake(c) in run
    ensures !Undisturbed(Apply(s, Wake(c)), run, c)
  {
    if Undisturbed(Apply(s, Wake(c)), run, c) {
      SleepsUntilFlagged(Apply(s, Wake(c)), run, c);
    }
  }
}
