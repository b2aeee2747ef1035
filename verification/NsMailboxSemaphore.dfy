/**
 The mailbox queue of the semaphore build as the code holds it, changed in place. `model` is the
 state of the protocol in SemaphoreBuild that the concrete fields represent; every method performs
 steps of that protocol on it, one critical section or one plain store at a time.
 */
module NsMailboxSemaphore {
  import opened Histories
  import opened MailboxTypes
  import opened Wrappers
  import opened StatusWord
  import SB = SemaphoreBuild

  class Queue {
    const depth: nat
    const slots: array<SB.Slot>
    var emptySlots: bv32
    var pendSlots: bv32
    var repliedSlots: bv32
    var permits: int
    // The memory of the client tasks, program counters included.
    var clients: map<Task, SB.Client>
    ghost var model: SB.State

    ghost function SlotMap(): map<SlotIdx, SB.Slot>
      reads slots
    {
      map i: SlotIdx | 0 <= i < slots.Length :: slots[i]
    }

    ghost predicate Represents()
      reads this, slots
    {
      && 1 <= depth <= 32 && slots.Length == depth
      && IsFirst(model.all, depth) && !model.atomicAcquire
      && model.empty == Members(emptySlots) && model.pend == Members(pendSlots)
      && model.replied == Members(repliedSlots) && model.slots == SlotMap()
      && model.clients == clients && model.permits == permits
      && Members(repliedSlots) <= model.all
    }

    // The client is at a program point that works on slot idx.
    ghost predicate At(c: Task, idx: nat)
      reads this, slots
    {
      idx < depth && c in clients && clients[c].pc.HasSlot() && clients[c].pc.idx == idx
    }

    // tfm_ns_mailbox_init
    constructor (depth: nat, slot: SB.Slot, clients: map<Task, SB.Client>)
      requires 1 <= depth <= 32 && !slot.isWoken && slot.owner == None
      requires forall c | c in clients :: clients[c].pc == SB.Idle && clients[c].serial == 0
      ensures Represents() && this.depth == depth && this.clients == clients
      ensures SB.Init(model) && |model.all| == depth
    {
      this.depth := depth;
      slots := new SB.Slot[depth](_ => slot);
      emptySlots, pendSlots, repliedSlots := InitWord(depth), 0, 0;
      permits := depth;
      this.clients := clients;
      var all := Members(InitWord(depth));
      model := SB.State(all, false, depth, clients, all, {}, {}, map i | i in all :: slot, map[], SB.Quiet, {}, []);
      new;
      hide InitWord, Members;
      InitWordMembers(depth);
      ZeroMembers(0);
      assert SlotMap() == model.slots;
      FirstSize(model.all, depth);
      assert SlotMap().Keys == model.all;
      assert forall i | i in model.slots :: model.slots[i] == slot;
    }

    // tfm_ns_mailbox_os_lock_acquire and tfm_ns_mailbox_os_lock_release on the counting semaphore.
    method LockAcquire(c: Task)
      requires Represents() && SB.Enabled(model, SB.AcquirePermit(c))
      modifies this`permits, this`clients, this`model
      ensures Represents() && model == SB.Apply(old(model), SB.AcquirePermit(c))
      ensures permits == old(permits) - 1
    {
      hide Members, IsFirst;
      permits := permits - 1;
      clients := clients[c := clients[c].(pc := SB.Snapshotting)];
      model := SB.DoAcquire(model, c);
    }

    method LockRelease(c: Task)
      requires Represents() && SB.Enabled(model, SB.ReleasePermit(c))
      modifies this`permits, this`clients, this`model
      ensures Represents() && model == SB.Apply(old(model), SB.ReleasePermit(c))
      ensures permits == old(permits) + 1 && clients[c].ret == old(clients[c].pc.code)
    {
      hide Members, IsFirst;
      permits := permits + 1;
      var k := clients[c];
      clients := clients[c := k.(pc := SB.Idle, serial := k.serial + 1, ret := k.pc.code)];
      model := SB.DoRelease(model, c);
    }

    // The first critical section of acquire_empty_slot and the test that follows it.
    method SnapshotEmpty(c: Task) returns (status: bv32)
      requires Represents() && c in clients && clients[c].pc == SB.Snapshotting
      modifies this`clients, this`model
      ensures Represents() && status == emptySlots
      ensures SB.Enabled(old(model), SB.Snapshot(c)) && model == SB.Apply(old(model), SB.Snapshot(c))
      ensures clients[c].pc == if status == 0 then SB.Leaving(QUEUE_FULL) else SB.Claiming(Members(status))
    {
      hide Members, IsFirst;
      status := emptySlots;
      ZeroMembers(status);
      clients := clients[c := clients[c].(pc := if status == 0 then SB.Leaving(QUEUE_FULL)
                                                else SB.Claiming(Members(status)))];
      model := SB.DoSnapshot(model, c);
    }

    // The scan of the snapshot and the second critical section: the lowest slot of the snapshot is
    // taken, whatever has happened to it since.
    method ClaimSlot(c: Task, status: bv32) returns (idx: nat)
      requires Represents() && c in clients && status != 0 && Members(status) <= model.all
      requires clients[c].pc == SB.Claiming(Members(status))
      modifies this`emptySlots, this`clients, this`model
      ensures Represents() && idx < depth
      ensures SB.Enabled(old(model), SB.Claim(c, idx)) && model == SB.Apply(old(model), SB.Claim(c, idx))
      ensures idx in Members(status) && forall j | j in Members(status) :: idx <= j
      ensures Members(emptySlots) == old(Members(emptySlots)) - {idx}
    {
      hide Mask, Clear, Members, IsFirst;
      ZeroMembers(status);
      ghost var k :| k in Members(status);
      FirstMember(model.all, depth, k);
      idx := LowestBit(status, depth, k);
      hide IsLowest;
      WordOps(emptySlots, Mask(idx));
      MaskMembers(idx);
      emptySlots := Clear(emptySlots, Mask(idx));
      clients := clients[c := clients[c].(pc := SB.FillingMsg(idx))];
      model := SB.DoClaim(model, c, idx);
    }

    // The rest of mailbox_tx_client_req: message, owner, pend bit.
    method FillMsg(c: Task, idx: nat)
      requires Represents() && At(c, idx) && clients[c].pc.FillingMsg?
      modifies this`clients, this`model, slots
      ensures Represents()
      ensures SB.Enabled(old(model), SB.FillMsg(c)) && model == SB.Apply(old(model), SB.FillMsg(c))
      ensures slots[idx] == old(slots[idx]).(msg := clients[c].msg, stamp := CallId(c, clients[c].serial))
      ensures forall j | 0 <= j < depth && j != idx :: slots[j] == old(slots[j])
    {
      hide Members, IsFirst;
      assert idx in SlotMap();
      var k := clients[c];
      slots[idx] := slots[idx].(msg := k.msg, stamp := CallId(c, k.serial));
      clients := clients[c := k.(pc := SB.SettingOwner(idx))];
      model := SB.DoFillMsg(model, c);
      assert SlotMap() == model.slots;
    }

    method SetMsgOwner(c: Task, idx: nat)
      requires Represents() && At(c, idx) && clients[c].pc.SettingOwner?
      modifies this`clients, this`model, slots
      ensures Represents()
      ensures SB.Enabled(old(model), SB.SetOwner(c)) && model == SB.Apply(old(model), SB.SetOwner(c))
      ensures slots[idx] == old(slots[idx]).(owner := Some(c))
      ensures forall j | 0 <= j < depth && j != idx :: slots[j] == old(slots[j])
    {
      hide Members, IsFirst;
      assert idx in SlotMap();
      slots[idx] := slots[idx].(owner := Some(c));
      clients := clients[c := clients[c].(pc := SB.Pending(idx))];
      model := SB.DoSetOwner(model, c);
      assert SlotMap() == model.slots;
    }

    method SetQueueSlotPend(c: Task, idx: nat)
      requires Represents() && At(c, idx) && clients[c].pc.Pending?
      modifies this`pendSlots, this`clients, this`model
      ensures Represents()
      ensures SB.Enabled(old(model), SB.PendSlot(c)) && model == SB.Apply(old(model), SB.PendSlot(c))
      ensures Members(pendSlots) == old(Members(pendSlots)) + {idx}
    {
      hide Mask, Set, Members, IsFirst;
      assert idx in SlotMap();
      WordOps(pendSlots, Mask(idx));
      MaskMembers(idx);
      pendSlots := Set(pendSlots, Mask(idx));
      clients := clients[c := clients[c].(pc := SB.Waiting(idx))];
      model := SB.DoPend(model, c);
    }

    // mailbox_wait_reply_signal: tests and clears the woken flag of the slot.
    method WaitReplySignal(c: Task, idx: nat) returns (isSet: bool)
      requires Represents() && At(c, idx) && clients[c].pc.Checking?
      modifies this`clients, this`model, slots
      ensures Represents() && isSet == old(slots[idx].isWoken)
      ensures SB.Enabled(old(model), SB.Check(c)) && model == SB.Apply(old(model), SB.Check(c))
      ensures slots[idx] == old(slots[idx]).(isWoken := false)
      ensures clients[c].pc == if isSet then SB.Reading(idx) else SB.Waiting(idx)
    {
      hide Members, IsFirst;
      assert idx in SlotMap();
      isSet := slots[idx].isWoken;
      if isSet {
        slots[idx] := slots[idx].(isWoken := false);
      }
      clients := clients[c := clients[c].(pc := if isSet then SB.Reading(idx) else SB.Waiting(idx))];
      model := SB.DoCheck(model, c);
      assert SlotMap() == model.slots;
    }

    // mailbox_rx_client_reply: the value, then the owner, then the woken flag and the empty bit
    // under the lock.
    method ReadReturnVal(c: Task, idx: nat)
      requires Represents() && At(c, idx) && clients[c].pc.Reading?
      modifies this`clients, this`model
      ensures Represents()
      ensures SB.Enabled(old(model), SB.Read(c)) && model == SB.Apply(old(model), SB.Read(c))
      ensures clients[c].replyBuf == slots[idx].returnVal
    {
      hide Members, IsFirst;
      assert idx in SlotMap();
      clients := clients[c := clients[c].(pc := SB.Disowning(idx), replyBuf := slots[idx].returnVal)];
      model := SB.DoRead(model, c);
    }

    method ClearMsgOwner(c: Task, idx: nat)
      requires Represents() && At(c, idx) && clients[c].pc.Disowning?
      modifies this`clients, this`model, slots
      ensures Represents()
      ensures SB.Enabled(old(model), SB.Disown(c)) && model == SB.Apply(old(model), SB.Disown(c))
      ensures slots[idx] == old(slots[idx]).(owner := None)
      ensures forall j | 0 <= j < depth && j != idx :: slots[j] == old(slots[j])
    {
      hide Members, IsFirst;
      assert idx in SlotMap();
      slots[idx] := slots[idx].(owner := None);
      clients := clients[c := clients[c].(pc := SB.Freeing(idx))];
      model := SB.DoDisown(model, c);
      assert SlotMap() == model.slots;
    }

    method FreeSlot(c: Task, idx: nat)
      requires Represents() && At(c, idx) && clients[c].pc.Freeing?
      modifies this`emptySlots, this`clients, this`model, slots
      ensures Represents()
      ensures SB.Enabled(old(model), SB.Free(c)) && model == SB.Apply(old(model), SB.Free(c))
      ensures Members(emptySlots) == old(Members(emptySlots)) + {idx} && !slots[idx].isWoken
      ensures clients[c].replyCell == old(clients[c].replyBuf) && clients[c].pc == SB.Leaving(SUCCESS)
    {
      hide Mask, Set, Members, IsFirst;
      assert idx in SlotMap();
      slots[idx] := slots[idx].(isWoken := false);
      WordOps(emptySlots, Mask(idx));
      MaskMembers(idx);
      emptySlots := Set(emptySlots, Mask(idx));
      var k := clients[c];
      clients := clients[c := k.(pc := SB.Leaving(SUCCESS), replyCell := k.replyBuf)];
      model := SB.DoFree(model, c);
      assert SlotMap() == model.slots;
    }

    // One turn of the handler's loop: the woken flag, then the recorded owner.
    method SetQueueSlotWoken(idx: nat)
      requires Represents() && idx < depth && SB.Enabled(model, SB.IsrFlag(idx))
      modifies this`model, slots
      ensures Represents() && model == SB.Apply(old(model), SB.IsrFlag(idx))
      ensures slots[idx] == old(slots[idx]).(isWoken := true)
      ensures forall j | 0 <= j < depth && j != idx :: slots[j] == old(slots[j])
    {
      hide Members, IsFirst;
      slots[idx] := slots[idx].(isWoken := true);
      model := SB.DoIsrFlag(model, idx);
      assert SlotMap() == model.slots;
    }

    method WakeTask(idx: nat)
      requires Represents() && idx < depth && model.isr == SB.Waking(idx)
      modifies this`clients, this`model
      ensures Represents()
      ensures SB.Enabled(old(model), SB.IsrWake) && model == SB.Apply(old(model), SB.IsrWake)
      ensures
        var owner := slots[idx].owner;
        clients ==
          if owner.Some? && owner.value in old(clients)
          then old(clients)[owner.value := old(clients)[owner.value].(threadFlag := true)]
          else old(clients)
    {
      hide Members, IsFirst;
      assert idx in SlotMap();
      var owner := slots[idx].owner;
      if owner.Some? && owner.value in clients {
        clients := clients[owner.value := clients[owner.value].(threadFlag := true)];
      }
      model := SB.DoIsrWake(model);
    }

    method DeliverSlot(idx: nat) returns (ghost run: seq<SB.Step>)
      requires Represents() && idx < depth && SB.Enabled(model, SB.IsrFlag(idx)) && idx in model.remaining
      modifies this`clients, this`model, slots
      ensures Represents() && run == [SB.IsrFlag(idx)] + [SB.IsrWake]
      ensures SB.ValidRun(old(model), run) && model == SB.Final(old(model), run)
      ensures model.remaining == old(model.remaining) - {idx}
      ensures model.isr == if model.remaining == {} then SB.Quiet else SB.Flagging
      ensures SameQueue(old(model), model)
      ensures model.slots == old(model.slots)[idx := old(model.slots)[idx].(isWoken := true)]
    {
      hide SB.ValidRun, SB.Final, SB.Apply, SB.Enabled, Represents;
      ghost var start := model;
      SB.StayHere(start);
      FlagEffect(start, idx);
      SetQueueSlotWoken(idx);
      SB.RunThen(start, [], SB.IsrFlag(idx));
      assert [] + [SB.IsrFlag(idx)] == [SB.IsrFlag(idx)];
      WakeEffect(model);
      WakeTask(idx);
      SB.RunThen(start, [SB.IsrFlag(idx)], SB.IsrWake);
      run := [SB.IsrFlag(idx)] + [SB.IsrWake];
    }

    // The handler's loop over its snapshot, with its early exit, in ascending order.
    method DeliverSnapshot(snapshot: bv32) returns (ghost run: seq<SB.Step>)
      requires Represents() && snapshot != 0 && Members(snapshot) <= model.all
      requires model.isr == SB.Flagging && model.remaining == Members(snapshot)
      modifies this`clients, this`model, slots
      ensures Represents() && model.isr == SB.Quiet && model.remaining == {}
      ensures SB.ValidRun(old(model), run) && model == SB.Final(old(model), run)
      ensures SameQueue(old(model), model) && Woken(old(model), model, Members(snapshot))
    {
      hide Mask, Test, And, Clear, Set, Members, IsFirst, IsLowest;
      hide SB.ValidRun, SB.Final, SB.Apply, SB.Enabled, Woken, SameQueue;
      ghost var start := model;
      var replied := snapshot;
      run := [];
      SB.StayHere(start);
      ZeroMembers(replied);
      NoneWoken(start);
      SameQueueAgain(start, start, start);
      ghost var done: set<SlotIdx> := {};
      var idx := 0;
      while idx < depth
        invariant idx <= depth && Represents() && Members(replied) != {}
        invariant Members(replied) <= model.all && forall k | k in Members(replied) :: idx <= k
        invariant model.isr == SB.Flagging && model.remaining == Members(replied)
        invariant Members(snapshot) == Members(replied) + done && SameQueue(start, model) && Woken(start, model, done)
        invariant SB.ValidRun(start, run) && model == SB.Final(start, run)
      {
        Member(replied, idx);
        if Test(replied, idx) {
          WordOps(replied, Mask(idx));
          MaskMembers(idx);
          SlotExists(idx);
          assert IsLowest(idx, Members(replied)) by {
            LowestHere(idx, Members(replied));
          }
          FlagReady(model, idx);
          ghost var before := model;
          ghost var two := DeliverSlot(idx);
          SameQueueAgain(start, before, model);
          MoreWoken(start, before, model, done, idx);
          SB.RunConcat(start, run, two);
          run := run + two;
          done := done + {idx};
          replied := Clear(replied, Mask(idx));
          ZeroMembers(replied);
          if replied == 0 {
            assert done == Members(snapshot);
            return;
          }
        }
        idx := idx + 1;
      }
      ghost var k :| k in Members(replied);
      BelowDepth(k);
    }

    lemma SlotExists(idx: nat)
      requires Represents() && idx < depth
      ensures idx in model.slots
    {
      assert idx in SlotMap();
    }

    lemma BelowDepth(k: nat)
      requires Represents() && k in model.all
      ensures k < depth
    {
    }

    // tfm_ns_mailbox_wake_reply_owner_isr is a run of the protocol's handler steps that flags
    // exactly the slots that were replied when it started.
    method WakeReplyOwnerIsr() returns (code: int, ghost run: seq<SB.Step>)
      requires Represents() && model.isr == SB.Quiet && model.remaining == {}
      modifies this`repliedSlots, this`clients, this`model, slots
      ensures Represents() && model.isr == SB.Quiet && model.remaining == {}
      ensures SB.ValidRun(old(model), run) && model == SB.Final(old(model), run)
      ensures code == if old(repliedSlots) == 0 then NO_PEND_EVENT else SUCCESS
      ensures model.replied == {} && Woken(old(model), model, old(model.replied))
    {
      hide Mask, Test, And, Clear, Set, Members, InitWord, IsFirst, SB.ValidRun, SB.Final, SB.Apply, SB.Enabled, Woken;
      ghost var start := model;
      var replied := repliedSlots;
      ZeroMembers(replied);
      WordOps(repliedSlots, replied);
      repliedSlots := Clear(repliedSlots, replied);
      EnterEffect(start);
      SB.StayHere(start);
      SB.RunThen(start, [], SB.IsrEnter);
      run := [] + [SB.IsrEnter];
      model := SB.DoIsrEnter(model);
      assert Members(repliedSlots) == {};
      if replied == 0 {
        NoneWoken(start);
        return NO_PEND_EVENT, run;
      }
      ghost var entered := model;
      ghost var loop := DeliverSnapshot(replied);
      SB.RunConcat(start, run, loop);
      run := run + loop;
      SameWoken(start, entered, model, Members(replied));
      code := SUCCESS;
    }
  }

  // The handler leaves everything of the queue but woken flags as it is.
  ghost predicate SameQueue(m: SB.State, m': SB.State) {
    && m'.all == m.all && m'.empty == m.empty && m'.pend == m.pend && m'.replied == m.replied && m'.secure == m.secure
  }

  // The slots of S are flagged, and nothing else of any slot changes.
  ghost predicate Woken(m: SB.State, m': SB.State, S: set<SlotIdx>) {
    && m'.slots.Keys == m.slots.Keys
    && forall i | i in m.slots :: m'.slots[i] == if i in S then m.slots[i].(isWoken := true) else m.slots[i]
  }

  lemma LowestHere(i: SlotIdx, S: set<SlotIdx>)
    requires i in S && forall j | j in S :: i <= j
    ensures IsLowest(i, S)
  {
  }

  lemma SameQueueAgain(m: SB.State, m': SB.State, m'': SB.State)
    ensures SameQueue(m, m)
    ensures SameQueue(m, m') && SameQueue(m', m'') ==> SameQueue(m, m'') && m''.all == m.all
  {
  }

  lemma NoneWoken(m: SB.State)
    ensures Woken(m, m, {})
  {
  }

  lemma MoreWoken(start: SB.State, m: SB.State, m': SB.State, done: set<SlotIdx>, idx: SlotIdx)
    requires Woken(start, m, done) && idx in m.slots
    requires m'.slots == m.slots[idx := m.slots[idx].(isWoken := true)]
    ensures Woken(start, m', done + {idx})
  {
  }

  lemma SameWoken(start: SB.State, entered: SB.State, m: SB.State, S: set<SlotIdx>)
    requires entered.slots == start.slots && Woken(entered, m, S)
    ensures Woken(start, m, S)
  {
  }

  // ---------- what single handler steps do to the handler and the queue ----------

  lemma EnterEffect(m: SB.State)
    requires m.isr == SB.Quiet
    ensures SB.Enabled(m, SB.IsrEnter) && SB.Apply(m, SB.IsrEnter) == SB.DoIsrEnter(m)
  {
  }

  lemma FlagReady(m: SB.State, idx: SlotIdx)
    requires m.isr == SB.Flagging && IsLowest(idx, m.remaining) && idx in m.slots
    ensures SB.Enabled(m, SB.IsrFlag(idx)) && idx in m.remaining
  {
  }

  lemma FlagEffect(m: SB.State, idx: SlotIdx)
    requires SB.Enabled(m, SB.IsrFlag(idx))
    ensures idx in m.slots && SameQueue(m, SB.Apply(m, SB.IsrFlag(idx)))
    ensures
      var m' := SB.Apply(m, SB.IsrFlag(idx));
      && m'.isr == SB.Waking(idx) && m'.remaining == m.remaining
      && m'.slots == m.slots[idx := m.slots[idx].(isWoken := true)]
  {
  }

  lemma WakeEffect(m: SB.State)
    requires m.isr.Waking? && m.isr.idx in m.slots
    ensures SB.Enabled(m, SB.IsrWake) && SameQueue(m, SB.Apply(m, SB.IsrWake))
    ensures
      var m' := SB.Apply(m, SB.IsrWake);
      && m'.remaining == m.remaining - {m.isr.idx} && m'.slots == m.slots
      && m'.isr == if m'.remaining == {} then SB.Quiet else SB.Flagging
  {
  }
}
