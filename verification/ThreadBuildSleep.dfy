/**
 The thread build: who sleeps until when, and the flag and the message queue around it. A sleeper
 goes on only after its thread flag was raised, and waking up uses the flag up.
 */
module ThreadBuildSleep {
  import opened MailboxTypes
  import opened Wrappers
  import opened ThreadBuild
  import opened ThreadBuildTheorems

  // ---------- sleeping and waking ----------

  // Those who sleep on a thread flag: the mailbox thread and the clients.
  datatype Sleeper = MailboxThread | ClientTask(task: Task)

  predicate Known(s: State, p: Sleeper) {
    p.ClientTask? ==> p.task in s.clients
  }

  predicate FlagUp(s: State, p: Sleeper)
    requires Known(s, p)
  {
    if p.ClientTask? then s.clients[p.task].threadFlag else s.threadFlag
  }

  predicate Asleep(s: State, p: Sleeper)
    requires Known(s, p)
  {
    if p.ClientTask? then s.clients[p.task].pc == Waiting else s.thread == Sleeping
  }

  function WakeOf(p: Sleeper): Step {
    if p.ClientTask? then ClientWake(p.task) else ThreadWake
  }

  // The steps that raise the flag: any event from outside, the handler's wake-up of the owner of a
  // slot, and the end of a pass that finds the queue marked full.
  predicate Raises(s: State, t: Step, p: Sleeper) {
    match p
    case MailboxThread => t == ThreadOtherFlag || (t == IsrCheckFull && s.mbox.isFull)
    case ClientTask(c) =>
      || t == OtherFlag(c)
      || (t == IsrWake && s.isr.pc.Waking? && s.isr.pc.idx in s.mbox.slots
          && s.mbox.slots[s.isr.pc.idx].owner == Some(c))
  }

  // No step of the run raises the flag.
  predicate Undisturbed(s: State, run: seq<Step>, p: Sleeper)
    requires ValidRun(s, run)
    decreases |run|
  {
    run == [] || (!Raises(s, run[0], p) && Undisturbed(Apply(s, run[0]), run[1..], p))
  }

  // What a step that does not raise the flag leaves as it was.
  ghost predicate StaysDown(s: State, s': State, p: Sleeper)
    requires Known(s, p)
  {
    && Known(s', p) && !FlagUp(s', p)
    && (Asleep(s, p) ==> Asleep(s', p))
  }

  ghost predicate ByClient(t: Step) {
    t.ClientCall? || t.ClientSend? || t.ClientCheck? || t.ClientWake? || t.OtherFlag?
  }

  ghost predicate ByThread(t: Step) {
    || t.ThreadReceive? || t.ThreadSnapshot? || t.ThreadMarkFull? || t.ThreadWake? || t.ThreadClearFull?
    || t.ThreadClaim? || t.ThreadFillMsg? || t.ThreadFillReply? || t.ThreadPend? || t.ThreadOtherFlag?
  }

  lemma ClientStepDown(s: State, t: Step, p: Sleeper)
    requires Known(s, p) && !FlagUp(s, p) && Enabled(s, t) && !Raises(s, t, p) && ByClient(t)
    ensures t != WakeOf(p) && StaysDown(s, Apply(s, t), p)
  {
  }

  lemma ThreadStepDown(s: State, t: Step, p: Sleeper)
    requires Known(s, p) && !FlagUp(s, p) && Enabled(s, t) && !Raises(s, t, p) && ByThread(t)
    ensures t != WakeOf(p) && StaysDown(s, Apply(s, t), p)
  {
  }

  lemma WakeStepDown(s: State, p: Sleeper)
    requires Known(s, p) && !FlagUp(s, p) && Enabled(s, IsrWake) && !Raises(s, IsrWake, p)
    ensures StaysDown(s, DoIsrWake(s), p)
  {
  }

  lemma OtherStepDown(s: State, t: Step, p: Sleeper)
    requires Known(s, p) && !FlagUp(s, p) && Enabled(s, t) && !Raises(s, t, p)
    requires !ByClient(t) && !ByThread(t) && t != IsrWake
    ensures t != WakeOf(p) && StaysDown(s, Apply(s, t), p)
  {
  }

  lemma StepDown(s: State, t: Step, p: Sleeper)
    requires Known(s, p) && !FlagUp(s, p) && Enabled(s, t) && !Raises(s, t, p)
    ensures t != WakeOf(p) && StaysDown(s, Apply(s, t), p)
  {
    hide StaysDown, Raises, DoIsrWake, FlagUp;
    if t == IsrWake {
      WakeStepDown(s, p);
    } else {
      hide Apply, Enabled;
      if ByClient(t) {
        ClientStepDown(s, t, p);
      } else if ByThread(t) {
        ThreadStepDown(s, t, p);
      } else {
        OtherStepDown(s, t, p);
      }
    }
  }

  // With its flag down and nobody raising it, a party does not wake up, however long the run.
  lemma {:induction false} SleepsUntilFlagged(s: State, run: seq<Step>, p: Sleeper)
    requires Known(s, p) && !FlagUp(s, p) && ValidRun(s, run) && Undisturbed(s, run, p)
    ensures WakeOf(p) !in run
    ensures Known(Final(s, run), p) && !FlagUp(Final(s, run), p)
    ensures Asleep(s, p) ==> Asleep(Final(s, run), p)
    decreases |run|
  {
    hide Apply, Enabled, Raises;
    if run != [] {
      StepDown(s, run[0], p);
      SleepsUntilFlagged(Apply(s, run[0]), run[1..], p);
      assert run == [run[0]] + run[1..];
    }
  }

  // Waking up uses the flag up: between two wake-ups of the same party somebody raised its flag.
  lemma OneWakePerFlag(s: State, run: seq<Step>, p: Sleeper)
    requires Enabled(s, WakeOf(p)) && ValidRun(Apply(s, WakeOf(p)), run) && WakeOf(p) in run
    ensures !Undisturbed(Apply(s, WakeOf(p)), run, p)
  {
    if Undisturbed(Apply(s, WakeOf(p)), run, p) {
      SleepsUntilFlagged(Apply(s, WakeOf(p)), run, p);
    }
  }

  // ---------- the message queue and the mark ----------

  // The message queue has room for as many requests as there are slots, and the queue is marked
  // full exactly while the mailbox thread waits for a slot.
  ghost predicate Bounded(s: State) {
    && |s.queue| <= |s.all|
    && (s.mbox.isFull <==> s.thread == Sleeping || s.thread == ClearingFull)
  }

  lemma ThreadBounded(s: State, t: Step)
    requires Bounded(s) && Enabled(s, t) && ByThread(t)
    ensures Bounded(Apply(s, t))
  {
  }

  lemma ClientBounded(s: State, t: Step)
    requires Bounded(s) && Enabled(s, t) && ByClient(t)
    ensures Bounded(Apply(s, t))
  {
  }

  lemma OtherBounded(s: State, t: Step)
    requires Bounded(s) && Enabled(s, t) && !ByClient(t) && !ByThread(t)
    ensures Bounded(Apply(s, t))
  {
  }

  lemma {:induction false} RunBounded(s: State, run: seq<Step>)
    requires Bounded(s) && ValidRun(s, run)
    ensures Bounded(Final(s, run))
    decreases |run|
  {
    hide Apply, Enabled, Bounded, ByThread, ByClient;
    if run != [] {
      if ByThread(run[0]) {
        ThreadBounded(s, run[0]);
      } else if ByClient(run[0]) {
        ClientBounded(s, run[0]);
      } else {
        OtherBounded(s, run[0]);
      }
      RunBounded(Apply(s, run[0]), run[1..]);
    }
  }

  // In every reachable state.
  lemma QueueBounded(s: State)
    requires Reachable(s)
    ensures |s.queue| <= |s.all|
    ensures s.mbox.isFull <==> s.thread == Sleeping || s.thread == ClearingFull
  {
    var s0, run :| Init(s0) && ValidRun(s0, run) && s == Final(s0, run);
    RunBounded(s0, run);
  }
}
