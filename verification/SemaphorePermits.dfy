/** The semaphore build, for every number of slots and with the split acquire: permits are conserved. */
module SemaphorePermits {
  import opened MailboxTypes
  import opened SemaphoreBuild

  ghost function Holders(s: State): set<Task> {
    set c | c in s.clients && s.clients[c].pc.Holds()
  }

  ghost predicate HoldsSlot(s: State, c: Task, i: SlotIdx) {
    c in s.clients && s.clients[c].pc.HasSlot() && s.clients[c].pc.idx == i
  }

  ghost predicate PcOk(pc: ClientPc, all: set<SlotIdx>) {
    && (pc.Claiming? ==> pc.status != {} && pc.status <= all)
    && (pc.HasSlot() ==> pc.idx in all)
    && (pc.Leaving? ==> pc.code == SUCCESS)
  }

  ghost predicate PermitInv(s: State) {
    && s.slots.Keys == s.all && s.empty <= s.all
    && (forall c | c in s.clients :: PcOk(s.clients[c].pc, s.all))
    && s.permits >= 0 && s.permits + |Holders(s)| == |s.all|
    && (forall i | i in s.all && i !in s.empty :: exists c :: HoldsSlot(s, c, i))
  }

  lemma InitPermit(s: State)
    requires Init(s)
    ensures PermitInv(s)
  {
    assert Holders(s) == {};
  }

  // If every slot of S is held by a task of W, there are at least as many tasks as slots.
  lemma {:induction false} SlotsCounted(s: State, S: set<SlotIdx>, W: set<Task>)
    requires forall i | i in S :: exists c :: c in W && HoldsSlot(s, c, i)
    ensures |S| <= |W|
    decreases |S|
  {
    if S != {} {
      var i :| i in S;
      var c :| c in W && HoldsSlot(s, c, i);
      forall j | j in S - {i} ensures exists d :: d in W - {c} && HoldsSlot(s, d, j) {
        var d :| d in W && HoldsSlot(s, d, j);
        assert d in W - {c};
      }
      SlotsCounted(s, S - {i}, W - {c});
      assert |S - {i}| == |S| - 1 && |W - {c}| == |W| - 1;
    }
  }

  // A task with a permit and no slot yet always finds an empty slot.
  lemma PermitFindsSlot(s: State, c: Task)
    requires PermitInv(s) && c in s.clients && s.clients[c].pc.Holds() && !s.clients[c].pc.HasSlot()
    ensures s.empty != {}
  {
    assert c in Holders(s) && |Holders(s) - {c}| == |Holders(s)| - 1;
    if s.empty == {} {
      forall i | i in s.all ensures exists d :: d in Holders(s) - {c} && HoldsSlot(s, d, i) {
        var d :| HoldsSlot(s, d, i);
        assert d in Holders(s) - {c};
      }
      SlotsCounted(s, s.all, Holders(s) - {c});
    }
  }

  // Steps that move c between program points on the same side of the permit.
  lemma PermitFrame(s: State, s': State, c: Task)
    requires PermitInv(s) && c in s.clients && c in s'.clients
    requires s'.all == s.all && s'.slots.Keys == s.all && s'.permits == s.permits
    requires s'.clients == s.clients[c := s'.clients[c]]
    requires s'.clients[c].pc.Holds() == s.clients[c].pc.Holds() && PcOk(s'.clients[c].pc, s.all)
    requires
      || (s'.empty == s.empty &&
          (s.clients[c].pc.HasSlot() ==> s'.clients[c].pc.HasSlot() && s'.clients[c].pc.idx == s.clients[c].pc.idx))
      || (!s.clients[c].pc.HasSlot() && s'.clients[c].pc.HasSlot() && s'.empty == s.empty - {s'.clients[c].pc.idx})
      || (s.clients[c].pc.HasSlot() && s'.empty == s.empty + {s.clients[c].pc.idx})
    ensures PermitInv(s')
  {
    assert Holders(s') == Holders(s);
    forall i | i in s'.all && i !in s'.empty ensures exists d :: HoldsSlot(s', d, i) {
      if i in s.empty {
        assert HoldsSlot(s', c, i);
      } else {
        var d :| HoldsSlot(s, d, i);
        assert HoldsSlot(s', d, i);
      }
    }
  }

  lemma PermitTaken(s: State, c: Task)
    requires PermitInv(s) && Enabled(s, AcquirePermit(c))
    ensures PermitInv(DoAcquire(s, c))
  {
    var s' := DoAcquire(s, c);
    assert Holders(s') == Holders(s) + {c};
    forall i | i in s'.all && i !in s'.empty ensures exists d :: HoldsSlot(s', d, i) {
      var d :| HoldsSlot(s, d, i);
      assert HoldsSlot(s', d, i);
    }
  }

  lemma PermitReturned(s: State, c: Task)
    requires PermitInv(s) && Enabled(s, ReleasePermit(c))
    ensures PermitInv(DoRelease(s, c))
  {
    var s' := DoRelease(s, c);
    assert Holders(s') == Holders(s) - {c};
    assert |Holders(s) - {c}| == |Holders(s)| - 1;
    forall i | i in s'.all && i !in s'.empty ensures exists d :: HoldsSlot(s', d, i) {
      var d :| HoldsSlot(s, d, i);
      assert HoldsSlot(s', d, i);
    }
  }

  lemma PermitKept(s: State, s': State)
    requires PermitInv(s)
    requires s'.all == s.all && s'.slots.Keys == s.all && s'.permits == s.permits && s'.empty == s.empty
    requires s'.clients.Keys == s.clients.Keys && forall c | c in s.clients :: s'.clients[c].pc == s.clients[c].pc
    ensures PermitInv(s')
  {
    assert Holders(s') == Holders(s);
    forall i | i in s'.all && i !in s'.empty ensures exists d :: HoldsSlot(s', d, i) {
      var d :| HoldsSlot(s, d, i);
      assert HoldsSlot(s', d, i);
    }
  }

  predicate OffClient(t: Step) {
    t.SecureTake? || t.SecureAnswer? || t.SecureReply? || t.IsrEnter? || t.IsrFlag? || t.IsrWake? || t.OtherFlag?
  }

  lemma StepPermit(s: State, t: Step)
    requires PermitInv(s) && Enabled(s, t)
    ensures PermitInv(Apply(s, t))
  {
    hide PermitInv;
    if t.AcquirePermit? {
      PermitTaken(s, t.c);
    } else if t.ReleasePermit? {
      PermitReturned(s, t.c);
    } else if OffClient(t) {
      OffClientPermit(s, t);
    } else if t.Call? || t.Snapshot? || t.SnapshotAndClaim? || t.Claim? {
      ApproachPermit(s, t);
    } else {
      hide Apply, Enabled;
      OnSlotPermit(s, t);
    }
  }

  lemma OffClientPermit(s: State, t: Step)
    requires PermitInv(s) && Enabled(s, t) && OffClient(t)
    ensures PermitInv(Apply(s, t))
  {
    PermitKept(s, Apply(s, t));
  }

  lemma ApproachPermit(s: State, t: Step)
    requires PermitInv(s) && Enabled(s, t) && (t.Call? || t.Snapshot? || t.SnapshotAndClaim? || t.Claim?)
    ensures PermitInv(Apply(s, t))
  {
    if t.Snapshot? {
      PermitFindsSlot(s, t.c);
    }
    PermitFrame(s, Apply(s, t), t.c);
  }

  lemma OnSlotPermit(s: State, t: Step)
    requires PermitInv(s) && Enabled(s, t) && !OffClient(t) && !t.Call? && !t.Snapshot? && !t.SnapshotAndClaim?
    requires !t.Claim? && !t.AcquirePermit? && !t.ReleasePermit?
    ensures PermitInv(Apply(s, t))
  {
    if t.FillMsg? || t.SetOwner? || t.PendSlot? || t.Wake? {
      SendingPermit(s, t);
    } else {
      PermitFrame(s, Apply(s, t), t.c);
    }
  }

  lemma SendingPermit(s: State, t: Step)
    requires PermitInv(s) && Enabled(s, t) && (t.FillMsg? || t.SetOwner? || t.PendSlot? || t.Wake?)
    ensures PermitInv(Apply(s, t))
  {
    PermitFrame(s, Apply(s, t), t.c);
  }

  lemma StepConfig(s: State, t: Step)
    requires Enabled(s, t)
    ensures Apply(s, t).all == s.all && Apply(s, t).atomicAcquire == s.atomicAcquire
    ensures Apply(s, t).clients.Keys == s.clients.Keys
  {
    hide Apply, Enabled;
    if OffClient(t) {
      OffClientConfig(s, t);
    } else {
      ClientConfig(s, t);
    }
  }

  lemma OffClientConfig(s: State, t: Step)
    requires Enabled(s, t) && OffClient(t)
    ensures Apply(s, t).all == s.all && Apply(s, t).atomicAcquire == s.atomicAcquire
    ensures Apply(s, t).clients.Keys == s.clients.Keys
  {
  }

  lemma ClientConfig(s: State, t: Step)
    requires Enabled(s, t) && !OffClient(t)
    ensures Apply(s, t).all == s.all && Apply(s, t).atomicAcquire == s.atomicAcquire
    ensures Apply(s, t).clients.Keys == s.clients.Keys
  {
    assert t.c in s.clients;
  }

  lemma {:induction false} RunPermit(s: State, run: seq<Step>)
    requires PermitInv(s) && ValidRun(s, run)
    ensures PermitInv(Final(s, run))
    ensures Final(s, run).all == s.all && Final(s, run).atomicAcquire == s.atomicAcquire
    ensures Final(s, run).clients.Keys == s.clients.Keys
    decreases |run|
  {
    if run != [] {
      StepPermit(s, run[0]);
      StepConfig(s, run[0]);
      hide PermitInv, Apply, Enabled;
      RunPermit(Apply(s, run[0]), run[1..]);
    }
  }

  // For every number of slots, clients and steps, split acquire included: free permits and holders
  // add up to the number of slots, and no call ends with the queue-full error.
  lemma PermitsConserved(s: State, run: seq<Step>)
    requires Init(s) && ValidRun(s, run)
    ensures
      var e := Final(s, run);
      && e.permits >= 0 && e.permits + |Holders(e)| == |s.all|
      && (forall i | i in e.all && i !in e.empty :: exists c :: HoldsSlot(e, c, i))
      && forall c | c in e.clients :: e.clients[c].pc != Leaving(QUEUE_FULL)
  {
    InitPermit(s);
    RunPermit(s, run);
  }
}
