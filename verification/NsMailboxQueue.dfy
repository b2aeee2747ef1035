/**
 The mailbox queue of the mailbox-thread build as the code holds it: three status words and an
 array of slots, changed in place. `model` is the state of the protocol in ThreadBuild that the
 concrete fields represent; every method performs steps of that protocol on it.
 */
module NsMailboxQueue {
  import opened Histories
  import opened MailboxTypes
  import opened Wrappers
  import opened StatusWord
  import TB = ThreadBuild

  class Queue {
    const depth: nat
    const slots: array<TB.Slot>
    var emptySlots: bv32
    var pendSlots: bv32
    var repliedSlots: bv32
    var isFull: bool
    // The memory of the client tasks and the mailbox thread's own thread flag.
    var clients: map<Task, TB.Client>
    var threadFlag: bool
    // The message queue between the clients and the mailbox thread.
    var requests: seq<TB.Request>
    ghost var model: TB.State

    ghost function SlotMap(): map<SlotIdx, TB.Slot>
      reads slots
    {
      map i: SlotIdx | 0 <= i < slots.Length :: slots[i]
    }

    ghost predicate Represents()
      reads this, slots
    {
      && 1 <= depth <= 32 && slots.Length == depth
      && IsFirst(model.all, depth)
      && model.mbox == TB.Mailbox(Members(emptySlots), Members(pendSlots), Members(repliedSlots), SlotMap(), isFull)
      && model.clients == clients && model.threadFlag == threadFlag && model.queue == requests
      && Members(emptySlots) <= model.all && Members(repliedSlots) <= model.all
    }

    // tfm_ns_mailbox_init: a cleared queue whose empty word has exactly the low `depth` bits set.
    constructor (depth: nat, slot: TB.Slot, clients: map<Task, TB.Client>)
      requires 1 <= depth <= 32
      requires forall c | c in clients :: clients[c].pc == TB.Idle && clients[c].serial == 0
      ensures Represents() && this.depth == depth && this.clients == clients
      ensures TB.Init(model) && |model.all| == depth
    {
      this.depth := depth;
      slots := new TB.Slot[depth](_ => slot);
      emptySlots, pendSlots, repliedSlots := InitWord(depth), 0, 0;
      isFull := false;
      this.clients := clients;
      threadFlag := false;
      requests := [];
      var all := Members(InitWord(depth));
      model := TB.State(all, clients, [], TB.Receiving, None, false,
        TB.Mailbox(all, {}, {}, map i | i in all :: slot, false),
        map[], TB.Isr(TB.Quiet, {}, {}, {}), [], false, false);
      new;
      hide InitWord, Members;
      InitWordMembers(depth);
      ZeroMembers(0);
      assert SlotMap() == model.mbox.slots;
      FirstSize(model.all, depth);
      assert SlotMap().Keys == model.all;
    }

    // tfm_ns_mailbox_client_call up to the request: the parameter check and the locals.
    method ClientCall(c: Task, msg: Msg, hasParams: bool, hasReply: bool, oldReply: int)
      requires Represents() && c in clients && clients[c].pc == TB.Idle
      modifies this`clients, this`model
      ensures Represents()
      ensures
        var t := TB.ClientCall(c, msg, hasParams, hasReply, oldReply);
        TB.Enabled(old(model), t) && model == TB.Apply(old(model), t)
      ensures
        var k := old(clients[c]);
        clients == old(clients)[c :=
          if hasParams && hasReply then TB.Client(TB.Sending, k.serial, msg, oldReply, false, k.threadFlag, k.ret)
          else k.(ret := INVAL_PARAMS)]
    {
      hide Members, IsFirst;
      if !hasParams || !hasReply {
        clients := clients[c := clients[c].(ret := INVAL_PARAMS)];
      } else {
        clients := clients[c := clients[c].(pc := TB.Sending, msg := msg, replyCell := oldReply, wokenFlag := false)];
      }
      model := TB.DoClientCall(model, c, msg, hasParams, hasReply, oldReply);
    }

    // tfm_ns_mailbox_os_mq_send: goes through when the message queue has room.
    method MqSend(c: Task)
      requires Represents() && TB.Enabled(model, TB.ClientSend(c))
      modifies this`clients, this`requests, this`model
      ensures Represents() && model == TB.Apply(old(model), TB.ClientSend(c))
      ensures
        var here := CallId(c, old(clients[c].serial));
        var msg := old(clients[c].msg);
        requests == old(requests) + [TB.Request(msg.callType, here, msg.clientId, c, here, here)]
    {
      hide Members, IsFirst;
      var k := clients[c];
      var here := CallId(c, k.serial);
      requests := requests + [TB.Request(k.msg.callType, here, k.msg.clientId, c, here, here)];
      clients := clients[c := k.(pc := TB.Checking)];
      model := TB.DoClientSend(model, c);
    }

    // One turn of mailbox_wait_reply's loop; the call is over when the woken flag is up.
    method WaitReply(c: Task) returns (done: bool)
      requires Represents() && c in clients && clients[c].pc == TB.Checking
      modifies this`clients, this`model
      ensures Represents() && done == old(clients[c].wokenFlag)
      ensures TB.Enabled(old(model), TB.ClientCheck(c)) && model == TB.Apply(old(model), TB.ClientCheck(c))
    {
      hide Members, IsFirst;
      var k := clients[c];
      done := k.wokenFlag;
      if done {
        clients := clients[c := k.(pc := TB.Idle, serial := k.serial + 1, ret := SUCCESS)];
      } else {
        clients := clients[c := k.(pc := TB.Waiting)];
      }
      model := TB.DoClientCheck(model, c);
    }

    // tfm_ns_mailbox_os_mq_receive in the thread runner.
    method MqReceive() returns (req: TB.Request)
      requires Represents() && TB.Enabled(model, TB.ThreadReceive)
      modifies this`requests, this`model
      ensures Represents() && model == TB.Apply(old(model), TB.ThreadReceive) && model.req == Some(req)
      ensures old(requests) == [req] + requests
    {
      hide Members, IsFirst;
      req := requests[0];
      requests := requests[1..];
      model := TB.DoThreadReceive(model);
    }

    // The mailbox thread wakes up in acquire_empty_slot and looks again.
    method Resume()
      requires Represents() && TB.Enabled(model, TB.ThreadWake)
      modifies this`threadFlag, this`isFull, this`model
      ensures Represents() && model.thread == TB.Snapshotting && !threadFlag && !isFull
      ensures
        var m := TB.Apply(old(model), TB.ThreadWake);
        TB.Enabled(m, TB.ThreadClearFull) && model == TB.Apply(m, TB.ThreadClearFull)
    {
      hide Members, IsFirst;
      threadFlag := false;
      isFull := false;
      model := TB.Apply(TB.Apply(model, TB.ThreadWake), TB.ThreadClearFull);
    }

    // clear_queue_slot_empty, as the mailbox thread uses it to claim a slot.
    method ClearSlotEmpty(idx: nat)
      requires Represents() && idx < depth && TB.Enabled(model, TB.ThreadClaim(idx))
      modifies this`emptySlots, this`model
      ensures Represents() && model == TB.DoThreadClaim(old(model), idx)
    {
      hide Mask, And, Clear, Members, IsFirst, IsLowest;
      WordOps(emptySlots, Mask(idx));
      MaskMembers(idx);
      emptySlots := Clear(emptySlots, Mask(idx));
      model := TB.DoThreadClaim(model, idx);
    }

    // The first critical section of acquire_empty_slot and the test that follows it.
    method SnapshotEmpty() returns (status: bv32)
      requires Represents() && model.thread == TB.Snapshotting
      modifies this`model
      ensures Represents() && status == emptySlots
      ensures TB.Enabled(old(model), TB.ThreadSnapshot) && model == TB.Apply(old(model), TB.ThreadSnapshot)
      ensures model.thread == if status == 0 then TB.MarkingFull else TB.Claiming(Members(status))
    {
      hide Members, IsFirst;
      status := emptySlots;
      ZeroMembers(status);
      model := TB.DoThreadSnapshot(model);
    }

    // No empty slot: the flag is set before the thread sleeps.
    method MarkFull()
      requires Represents() && model.thread == TB.MarkingFull
      modifies this`isFull, this`model
      ensures Represents() && isFull
      ensures TB.Enabled(old(model), TB.ThreadMarkFull) && model == TB.Apply(old(model), TB.ThreadMarkFull)
    {
      hide Members, IsFirst;
      isFull := true;
      model := TB.Apply(model, TB.ThreadMarkFull);
    }

    // The scan of the snapshot and the second critical section: the lowest slot of the snapshot is
    // taken, whatever has happened to the queue since.
    method ClaimSlot(status: bv32) returns (idx: nat)
      requires Represents() && status != 0 && Members(status) <= model.all
      requires model.thread == TB.Claiming(Members(status))
      modifies this`emptySlots, this`model
      ensures Represents() && idx < depth
      ensures TB.Enabled(old(model), TB.ThreadClaim(idx)) && model == TB.Apply(old(model), TB.ThreadClaim(idx))
      ensures idx in Members(status) && forall j | j in Members(status) :: idx <= j
      ensures Members(emptySlots) == old(Members(emptySlots)) - {idx}
    {
      hide Members, IsFirst;
      ZeroMembers(status);
      ghost var k :| k in Members(status);
      FirstMember(model.all, depth, k);
      idx := LowestBit(status, depth, k);
      ClearSlotEmpty(idx);
    }

    // The rest of mailbox_tx_client_call_msg: the message, then the reply structure, then the pend bit.
    method FillMsg(req: TB.Request, idx: nat)
      requires Represents() && idx < depth && model.thread == TB.FillingMsg(idx) && model.req == Some(req)
      requires req.paramsPtr.task in clients
      modifies this`model, slots
      ensures Represents()
      ensures TB.Enabled(old(model), TB.ThreadFillMsg) && model == TB.Apply(old(model), TB.ThreadFillMsg)
      ensures slots[idx] ==
        old(slots[idx]).(msg := Msg(req.callType, clients[req.paramsPtr.task].msg.params, req.clientId))
      ensures forall j | 0 <= j < depth && j != idx :: slots[j] == old(slots[j])
    {
      hide Members, IsFirst;
      assert idx in SlotMap();
      slots[idx] := slots[idx].(msg := Msg(req.callType, clients[req.paramsPtr.task].msg.params, req.clientId));
      model := TB.DoThreadFillMsg(model);
      assert SlotMap() == model.mbox.slots;
    }

    method FillReply(req: TB.Request, idx: nat)
      requires Represents() && idx < depth && model.thread == TB.FillingReply(idx) && model.req == Some(req)
      modifies this`model, slots
      ensures Represents()
      ensures TB.Enabled(old(model), TB.ThreadFillReply) && model == TB.Apply(old(model), TB.ThreadFillReply)
      ensures slots[idx] == TB.Slot(
        old(slots[idx]).msg, old(slots[idx]).returnVal, Some(req.owner), Some(req.reply), Some(req.wokenFlag))
      ensures forall j | 0 <= j < depth && j != idx :: slots[j] == old(slots[j])
    {
      hide Members, IsFirst;
      assert idx in SlotMap();
      slots[idx] := slots[idx].(owner := Some(req.owner), reply := Some(req.reply), wokenFlag := Some(req.wokenFlag));
      model := TB.DoThreadFillReply(model);
      assert SlotMap() == model.mbox.slots;
    }

    method SetPend(req: TB.Request, idx: nat)
      requires Represents() && idx < depth && model.thread == TB.Pending(idx) && model.req == Some(req)
      modifies this`model, this`pendSlots
      ensures Represents()
      ensures TB.Enabled(old(model), TB.ThreadPend) && model == TB.Apply(old(model), TB.ThreadPend)
      ensures Members(pendSlots) == old(Members(pendSlots)) + {idx}
    {
      hide Mask, Set, Members;
      assert idx in SlotMap();
      WordOps(pendSlots, Mask(idx));
      MaskMembers(idx);
      pendSlots := Set(pendSlots, Mask(idx));
      model := TB.DoThreadPend(model);
    }

    // ns_mailbox_set_reply_isr
    method SetReplyIsr(idx: nat)
      requires Represents() && idx < depth && TB.Enabled(model, TB.IsrWrite(idx))
      modifies this`clients, this`model
      ensures Represents() && model == TB.Apply(old(model), TB.IsrWrite(idx))
      ensures
        var reply := slots[idx].reply;
        clients ==
          if reply.Some? && reply.value.task in old(clients)
          then old(clients)[reply.value.task := old(clients)[reply.value.task].(replyCell := slots[idx].returnVal)]
          else old(clients)
    {
      hide Members, IsFirst;
      var slot := slots[idx];
      assert slot == SlotMap()[idx];
      if slot.reply.Some? && slot.reply.value.task in clients {
        var c := slot.reply.value.task;
        clients := clients[c := clients[c].(replyCell := slot.returnVal)];
      }
      model := TB.DoIsrWrite(model, idx);
    }

    // set_queue_slot_woken
    method SetSlotWoken(idx: nat)
      requires Represents() && idx < depth && model.isr.pc == TB.Flagging(idx)
      modifies this`clients, this`model
      ensures Represents()
      ensures TB.Enabled(old(model), TB.IsrFlag) && model == TB.Apply(old(model), TB.IsrFlag)
      ensures
        var flag := slots[idx].wokenFlag;
        clients ==
          if flag.Some? && flag.value.task in old(clients)
          then old(clients)[flag.value.task := old(clients)[flag.value.task].(wokenFlag := true)]
          else old(clients)
    {
      hide Members, IsFirst;
      var slot := slots[idx];
      assert slot == SlotMap()[idx];
      if slot.wokenFlag.Some? && slot.wokenFlag.value.task in clients {
        var c := slot.wokenFlag.value.task;
        clients := clients[c := clients[c].(wokenFlag := true)];
      }
      model := TB.DoIsrFlag(model);
    }

    method WakeOwner(idx: nat)
      requires Represents() && idx < depth && model.isr.pc == TB.Waking(idx)
      modifies this`clients, this`model
      ensures Represents()
      ensures TB.Enabled(old(model), TB.IsrWake) && model == TB.Apply(old(model), TB.IsrWake)
      ensures
        var owner := slots[idx].owner;
        clients ==
          if owner.Some? && owner.value in old(clients)
          then old(clients)[owner.value := old(clients)[owner.value].(threadFlag := true)]
          else old(clients)
    {
      hide Members, IsFirst;
      var slot := slots[idx];
      assert slot == SlotMap()[idx];
      if slot.owner.Some? && slot.owner.value in clients {
        var c := slot.owner.value;
        clients := clients[c := clients[c].(threadFlag := true)];
      }
      model := TB.DoIsrWake(model);
    }

    // One turn of the handler's loop.
    method DeliverSlot(idx: nat) returns (ghost run: seq<TB.Step>)
      requires Represents() && idx < depth && TB.Enabled(model, TB.IsrWrite(idx))
      modifies this`clients, this`model
      ensures Represents()
      ensures run == [TB.IsrWrite(idx), TB.IsrFlag, TB.IsrWake]
      ensures TB.ValidRun(old(model), run) && model == TB.Final(old(model), run)
      ensures model.mbox == old(model.mbox) && model.all == old(model.all)
      ensures
        var left := old(model.isr.remaining) - {idx};
        model.isr == TB.Isr(
          if left == {} then TB.Releasing else TB.Writing, old(model.isr.snapshot), left, old(model.isr.complete) + {idx})
    {
      hide TB.ValidRun, TB.Final, TB.Apply, TB.Enabled, Represents;
      ghost var start := model;
      WriteEffect(start, idx);
      SetReplyIsr(idx);
      TB.EmptyRun(start, TB.IsrWrite(idx));
      FlagEffect(model);
      SetSlotWoken(idx);
      TB.RunThen(start, [TB.IsrWrite(idx)], TB.IsrFlag);
      WakeEffect(model);
      WakeOwner(idx);
      TB.RunThen(start, [TB.IsrWrite(idx)] + [TB.IsrFlag], TB.IsrWake);
      run := [TB.IsrWrite(idx)] + [TB.IsrFlag] + [TB.IsrWake];
    }

    // The handler's loop over its snapshot, with its early exit: every slot of the snapshot is
    // delivered once, in ascending order.
    method DeliverSnapshot(snapshot: bv32) returns (complete: bv32, ghost run: seq<TB.Step>)
      requires Represents() && snapshot != 0 && Members(snapshot) <= model.all
      requires model.isr == TB.Isr(TB.Writing, Members(snapshot), Members(snapshot), {})
      modifies this`clients, this`model
      ensures Represents() && Members(complete) == Members(snapshot)
      ensures model.isr == TB.Isr(TB.Releasing, Members(snapshot), {}, Members(snapshot))
      ensures TB.ValidRun(old(model), run) && model == TB.Final(old(model), run)
      ensures model.mbox == old(model.mbox) && model.all == old(model.all)
    {
      hide Mask, Test, And, Clear, Set, Members, IsFirst, TB.ValidRun, TB.Final, TB.Apply, TB.Enabled;
      ghost var start := model;
      var replied := snapshot;
      complete, run := 0, [];
      TB.StayHere(start);
      ZeroMembers(complete);
      ZeroMembers(replied);
      var idx := 0;
      while idx < depth
        invariant idx <= depth && Represents() && Members(replied) != {}
        invariant Members(replied) <= model.all && forall k | k in Members(replied) :: idx <= k
        invariant model.isr == TB.Isr(TB.Writing, Members(snapshot), Members(replied), Members(complete))
        invariant Members(snapshot) == Members(replied) + Members(complete)
        invariant TB.ValidRun(start, run) && model == TB.Final(start, run)
        invariant model.mbox == start.mbox && model.all == start.all
      {
        Member(replied, idx);
        if Test(replied, idx) {
          WordOps(complete, Mask(idx));
          WordOps(replied, Mask(idx));
          MaskMembers(idx);
          SlotExists(idx);
          WriteReady(model, idx);
          ghost var three := DeliverSlot(idx);
          TB.RunConcat(start, run, three);
          run := run + three;
          complete := Set(complete, Mask(idx));
          replied := Clear(replied, Mask(idx));
          ZeroMembers(replied);
          if replied == 0 {
            assert Members(complete) == Members(snapshot);
            return;
          }
        }
        idx := idx + 1;
      }
      ghost var k :| k in Members(replied);
      BelowDepth(k);
    }

    lemma SlotExists(idx: nat)
      requires Represents() && idx < depth
      ensures idx in model.mbox.slots
    {
      assert idx in SlotMap();
    }

    lemma BelowDepth(k: nat)
      requires Represents() && k in model.all
      ensures k < depth
    {
    }

    // set_queue_slot_all_empty at the end of the pass, then the wake-up of a waiting mailbox thread.
    method SetQueueSlotAllEmpty(completed: bv32)
      requires Represents() && model.isr.pc == TB.Releasing && Members(completed) == model.isr.complete <= model.all
      modifies this`emptySlots, this`model
      ensures Represents() && model == TB.DoIsrRelease(old(model))
      ensures Members(emptySlots) == old(Members(emptySlots)) + Members(completed)
    {
      hide Set, Members, IsFirst;
      WordOps(emptySlots, completed);
      emptySlots := Set(emptySlots, completed);
      model := TB.DoIsrRelease(model);
    }

    method WakeThreadIfFull()
      requires Represents() && model.isr.pc == TB.CheckingFull
      modifies this`threadFlag, this`model
      ensures Represents() && model == TB.DoIsrCheckFull(old(model))
      ensures threadFlag == (old(threadFlag) || isFull)
    {
      hide Members, IsFirst;
      if isFull {
        threadFlag := true;
      }
      model := TB.DoIsrCheckFull(model);
    }

    // tfm_ns_mailbox_wake_reply_owner_isr is a run of the protocol's handler steps and releases
    // exactly the slots that were replied when it started.
    method WakeReplyOwnerIsr() returns (code: int, ghost run: seq<TB.Step>)
      requires Represents() && model.isr == TB.Isr(TB.Quiet, {}, {}, {})
      modifies this
      ensures Represents() && model.isr == TB.Isr(TB.Quiet, {}, {}, {})
      ensures TB.ValidRun(old(model), run) && model == TB.Final(old(model), run)
      ensures code == if old(repliedSlots) == 0 then NO_PEND_EVENT else SUCCESS
      ensures model.mbox.replied == {} && model.mbox.pend == old(model.mbox.pend)
      ensures model.mbox.empty == old(model.mbox.empty + model.mbox.replied)
    {
      hide Mask, Test, And, Clear, Set, Members, InitWord, IsFirst, TB.ValidRun, TB.Final, TB.Apply, TB.Enabled;
      ghost var start := model;
      var replied := repliedSlots;
      ZeroMembers(replied);
      WordOps(repliedSlots, replied);
      repliedSlots := Clear(repliedSlots, replied);
      EnterEffect(start);
      TB.EmptyRun(start, TB.IsrEnter);
      run := [TB.IsrEnter];
      model := TB.DoIsrEnter(model);
      assert Members(repliedSlots) == {};
      if replied == 0 {
        return NO_PEND_EVENT, run;
      }
      var complete;
      ghost var loop;
      complete, loop := DeliverSnapshot(replied);
      TB.RunConcat(start, run, loop);
      run := run + loop;
      ReleaseEffect(model);
      SetQueueSlotAllEmpty(complete);
      TB.RunThen(start, run, TB.IsrRelease);
      WakeThreadIfFull();
      TB.RunThen(start, run + [TB.IsrRelease], TB.IsrCheckFull);
      run := run + [TB.IsrRelease] + [TB.IsrCheckFull];
      code := SUCCESS;
    }
  }

  // ---------- what single handler steps do to the handler and the queue ----------

  lemma EnterEffect(m: TB.State)
    requires m.isr.pc == TB.Quiet
    ensures TB.Enabled(m, TB.IsrEnter) && TB.Apply(m, TB.IsrEnter) == TB.DoIsrEnter(m)
  {
  }

  lemma WriteReady(m: TB.State, idx: SlotIdx)
    requires m.isr.pc == TB.Writing && IsLowest(idx, m.isr.remaining) && idx in m.mbox.slots
    ensures TB.Enabled(m, TB.IsrWrite(idx))
  {
  }

  lemma WriteEffect(m: TB.State, idx: SlotIdx)
    requires TB.Enabled(m, TB.IsrWrite(idx))
    ensures idx in m.mbox.slots
    ensures TB.Apply(m, TB.IsrWrite(idx)).mbox == m.mbox && TB.Apply(m, TB.IsrWrite(idx)).all == m.all
    ensures TB.Apply(m, TB.IsrWrite(idx)).isr == m.isr.(pc := TB.Flagging(idx))
  {
  }

  lemma FlagEffect(m: TB.State)
    requires m.isr.pc.Flagging? && m.isr.pc.idx in m.mbox.slots
    ensures TB.Enabled(m, TB.IsrFlag) && TB.Apply(m, TB.IsrFlag).mbox == m.mbox && TB.Apply(m, TB.IsrFlag).all == m.all
    ensures TB.Apply(m, TB.IsrFlag).isr == m.isr.(pc := TB.Waking(m.isr.pc.idx))
  {
  }

  lemma WakeEffect(m: TB.State)
    requires m.isr.pc.Waking? && m.isr.pc.idx in m.mbox.slots
    ensures
      TB.Enabled(m, TB.IsrWake) &&
      var m', left := TB.Apply(m, TB.IsrWake), m.isr.remaining - {m.isr.pc.idx};
      && m'.mbox == m.mbox && m'.all == m.all
      && m'.isr == TB.Isr(
           if left == {} then TB.Releasing else TB.Writing, m.isr.snapshot, left, m.isr.complete + {m.isr.pc.idx})
  {
  }

  lemma ReleaseEffect(m: TB.State)
    requires m.isr.pc == TB.Releasing
    ensures TB.Enabled(m, TB.IsrRelease) && TB.Apply(m, TB.IsrRelease) == TB.DoIsrRelease(m)
    ensures
      var m1 := TB.DoIsrRelease(m);
      TB.Enabled(m1, TB.IsrCheckFull) && TB.Apply(m1, TB.IsrCheckFull) == TB.DoIsrCheckFull(m1)
  {
  }
}
