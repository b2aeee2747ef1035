/**
 The semaphore build seen by a caller: the arguments of a call, as the step that enters the call has
 them, against what the secure side receives for it and what the call returns, where no two tasks can
 race for a slot.
 */
module SemaphoreCalls {
  import opened Histories
  import opened MailboxTypes
  import opened Wrappers
  import opened SemaphoreBuild
  import opened SemaphorePermits
  import opened SemaphoreOwnership
  import opened SemaphoreTheorems

  // Step k of the run enters call `serial` of task c with the message m.
  ghost predicate Enters(s0: State, run: seq<Step>, k: nat, c: Task, serial: nat, m: Msg)
    requires ValidRun(s0, run)
  {
    && k < |run| && run[k].Call? && run[k].c == c && run[k].msg == m && run[k].hasParams && run[k].hasReply
    && ValidRun(s0, run[..k]) && c in Final(s0, run[..k]).clients
    && Final(s0, run[..k]).clients[c].serial == serial
  }

  // Every message on record for the call is m.
  ghost predicate AllCarry(log: seq<Event>, id: CallId, m: Msg) {
    forall e | e in log && e.id == id && (e.Pend? || e.Take?) :: e.msg == m
  }

  ghost predicate EnteredWith(s: State, c: Task, serial: nat, m: Msg) {
    && c in s.clients && serial <= s.clients[c].serial
    && (s.clients[c].serial == serial ==> s.clients[c].pc != Idle && s.clients[c].msg == m)
    && var h := History(s.log, CallId(c, serial));
       h != [] ==> h[0].Pend? && h[0].msg == m
  }

  ghost predicate LogGrows(s: State, s': State) {
    s'.log == s.log || (|s'.log| == |s.log| + 1 && s'.log == s.log + [s'.log[|s.log|]])
  }

  ghost predicate Goes(s: State, s': State, c: Task)
    requires c in s.clients
  {
    && c in s'.clients && s.clients[c].serial <= s'.clients[c].serial
    && (s.clients[c].pc != Idle && s'.clients[c].serial == s.clients[c].serial ==>
          s'.clients[c].pc != Idle && s'.clients[c].msg == s.clients[c].msg)
    && LogGrows(s, s')
  }

  lemma StepGoes(s: State, t: Step, c: Task)
    requires Enabled(s, t) && c in s.clients
    ensures Goes(s, Apply(s, t), c)
  {
    if OffClient(t) {
      OffClientGoes(s, t, c);
    } else if t.Call? || t.AcquirePermit? || t.Snapshot? || t.SnapshotAndClaim? || t.Claim? || t.ReleasePermit? {
      ApproachGoes(s, t, c);
    } else {
      OnSlotGoes(s, t, c);
    }
  }

  lemma OffClientGoes(s: State, t: Step, c: Task)
    requires Enabled(s, t) && c in s.clients && OffClient(t)
    ensures Goes(s, Apply(s, t), c)
  {
  }

  lemma ApproachGoes(s: State, t: Step, c: Task)
    requires Enabled(s, t) && c in s.clients
    requires t.Call? || t.AcquirePermit? || t.Snapshot? || t.SnapshotAndClaim? || t.Claim? || t.ReleasePermit?
    ensures Goes(s, Apply(s, t), c)
  {
  }

  lemma OnSlotGoes(s: State, t: Step, c: Task)
    requires Enabled(s, t) && c in s.clients
    requires t.FillMsg? || t.SetOwner? || t.PendSlot? || t.Wake? || t.Check? || t.Read? || t.Disown? || t.Free?
    ensures Goes(s, Apply(s, t), c)
  {
  }

  lemma HistoryGrows(s: State, s': State, id: CallId)
    requires LogGrows(s, s')
    ensures
      var h, h' := History(s.log, id), History(s'.log, id);
      h' == h || (|h'| == |h| + 1 && h <= h')
  {
    if s'.log != s.log {
      HistoryAppend(s.log, s'.log[|s.log|]);
    }
  }

  lemma HistoryFacts(s: State, id: CallId)
    requires OwnInv(s) && id.task in s.clients
    ensures
      var h, k := History(s.log, id), s.clients[id.task];
      && (id.serial < k.serial ==> |h| == 4)
      && (id.serial == k.serial && h != [] ==> h[0].Pend? && h[0].msg == k.msg)
  {
    hide PermitInv, Exclusive, Alone, FreeOk, IsrOk, InRange, History, Places, Stage;
    assert PastOk(s.clients, id, History(s.log, id));
    assert ClientOk(s, id.task);
  }

  lemma EnteredStep(s: State, t: Step, c: Task, serial: nat, m: Msg)
    requires OwnInv(s) && NoRace(s) && Enabled(s, t) && EnteredWith(s, c, serial, m)
    ensures EnteredWith(Apply(s, t), c, serial, m)
  {
    hide OwnInv, NoRace, Apply, Enabled, History;
    var s' := Apply(s, t);
    var id := CallId(c, serial);
    StepOwn(s, t);
    StepGoes(s, t, c);
    HistoryGrows(s, s', id);
    HistoryFacts(s, id);
    HistoryFacts(s', id);
  }

  lemma NoRaceStays(s: State, t: Step)
    requires NoRace(s) && Enabled(s, t)
    ensures NoRace(Apply(s, t))
  {
    hide Apply, Enabled;
    StepConfig(s, t);
  }

  lemma {:induction false} EnteredRun(s: State, run: seq<Step>, c: Task, serial: nat, m: Msg)
    requires OwnInv(s) && NoRace(s) && ValidRun(s, run) && EnteredWith(s, c, serial, m)
    ensures OwnInv(Final(s, run)) && EnteredWith(Final(s, run), c, serial, m)
    decreases |run|
  {
    if run != [] {
      hide OwnInv, NoRace, Apply, Enabled, EnteredWith;
      StepOwn(s, run[0]);
      NoRaceStays(s, run[0]);
      EnteredStep(s, run[0], c, serial, m);
      EnteredRun(Apply(s, run[0]), run[1..], c, serial, m);
    }
  }

  lemma EntersWith(s: State, t: Step)
    requires OwnInv(s) && Enabled(s, t) && t.Call? && t.hasParams && t.hasReply
    ensures EnteredWith(Apply(s, t), t.c, s.clients[t.c].serial, t.msg)
  {
    hide PermitInv, Exclusive, Alone, FreeOk, IsrOk, InRange, PastsOk, History, Places, Stage;
    assert ClientOk(s, t.c);
  }

  lemma EnteredAtEnd(s0: State, run: seq<Step>, k: nat, c: Task, serial: nat, m: Msg)
    requires Init(s0) && NoRace(s0) && ValidRun(s0, run) && Enters(s0, run, k, c, serial, m)
    ensures OwnInv(Final(s0, run)) && EnteredWith(Final(s0, run), c, serial, m)
  {
    hide Init, OwnInv, NoRace, Apply, Enabled, EnteredWith;
    RunSplit(s0, run, k);
    var s := Final(s0, run[..k]);
    InvAlong(s0, run[..k]);
    EntersWith(s, run[k]);
    StepOwn(s, run[k]);
    NoRaceStays(s, run[k]);
    var rest := run[k..];
    assert rest[0] == run[k];
    EnteredRun(Apply(s, run[k]), rest[1..], c, serial, m);
  }

  lemma InvAlong(s0: State, run: seq<Step>)
    requires Init(s0) && NoRace(s0) && ValidRun(s0, run)
    ensures OwnInv(Final(s0, run)) && NoRace(Final(s0, run))
  {
    hide OwnInv, Init;
    assert ReachableFrom(s0, Final(s0, run));
    ReachableOwn(s0, Final(s0, run));
    InitPermit(s0);
    RunPermit(s0, run);
  }

  lemma CanonicalCarries(s: State, id: CallId, m: Msg)
    requires OwnInv(s)
    requires var h := History(s.log, id); h != [] ==> h[0].Pend? && h[0].msg == m
    ensures AllCarry(s.log, id, m)
  {
    hide PermitInv, Exclusive, Alone, FreeOk, IsrOk, InRange, ClientsOk, History;
    var h := History(s.log, id);
    assert PastOk(s.clients, id, h);
    forall e | e in s.log && e.id == id && (e.Pend? || e.Take?) ensures e.msg == m {
      var j :| 0 <= j < |s.log| && s.log[j] == e;
      InHistory(s.log, j);
      var n :| 0 <= n < |h| && h[n] == e;
    }
  }

  // Once a call is entered with the message m, every pend and take of that call carries m, in every
  // run in which no two tasks can race for a slot.
  lemma CallCarriesItsArguments(s0: State, run: seq<Step>, k: nat, c: Task, serial: nat, m: Msg)
    requires Init(s0) && NoRace(s0) && ValidRun(s0, run) && Enters(s0, run, k, c, serial, m)
    ensures AllCarry(Final(s0, run).log, CallId(c, serial), m)
  {
    hide OwnInv, AllCarry, NoRace;
    EnteredAtEnd(s0, run, k, c, serial, m);
    CanonicalCarries(Final(s0, run), CallId(c, serial), m);
  }

  // A call that ends was entered with some message m, and returns success and the value the secure side
  // produced when it took m for this very call.
  lemma SuccessReturnsOwnAnswer(s0: State, run: seq<Step>, k: nat, c: Task, serial: nat, m: Msg)
    requires Init(s0) && NoRace(s0) && ValidRun(s0, run) && Enters(s0, run, k, c, serial, m)
    requires Enabled(Final(s0, run), ReleasePermit(c)) && Final(s0, run).clients[c].serial == serial
    ensures
      var s' := Apply(Final(s0, run), ReleasePermit(c));
      var h := History(s'.log, CallId(c, serial));
      && s'.clients[c].ret == SUCCESS && s'.clients[c].pc == Idle
      && |h| == 4 && h[0].Pend? && h[1].Take? && h[2].Answer? && h[3].Return?
      && h[0].msg == h[1].msg == m && h[0].slot == h[1].slot == h[2].slot
      && s'.clients[c].replyCell == h[2].value == h[3].value
  {
    hide OwnInv, NoRace, Init, History;
    var s := Final(s0, run);
    EnteredAtEnd(s0, run, k, c, serial, m);
    assert ReachableFrom(s0, s);
    LeavingCallReturns(s0, s, c);
  }

  // A call without parameters or without a place for the reply is refused at once and leaves no trace.
  lemma IncompleteCallRefused(s: State, c: Task, m: Msg, hasParams: bool, hasReply: bool)
    requires Enabled(s, Call(c, m, hasParams, hasReply)) && !(hasParams && hasReply)
    ensures
      var s' := Apply(s, Call(c, m, hasParams, hasReply));
      && s'.clients[c].ret == INVAL_PARAMS && s'.clients[c].pc == Idle
      && s'.clients[c].replyCell == s.clients[c].replyCell && s'.clients[c].serial == s.clients[c].serial
      && (forall d | d in s.clients && d != c :: d in s'.clients && s'.clients[d] == s.clients[d])
      && s'.log == s.log && s'.permits == s.permits && s'.slots == s.slots
      && s'.empty == s.empty && s'.pend == s.pend && s'.replied == s.replied && s'.isr == s.isr
  {
  }

  // Every call under way was entered by a step of the run with both pointers.
  lemma {:induction false} CallWasEntered(s0: State, run: seq<Step>, c: Task) returns (k: nat)
    requires Init(s0) && ValidRun(s0, run) && c in Final(s0, run).clients && Final(s0, run).clients[c].pc != Idle
    ensures Enters(s0, run, k, c, Final(s0, run).clients[c].serial, Final(s0, run).clients[c].msg)
    decreases |run|
  {
    hide Apply, Enabled;
    if run == [] {
      assert false;
    } else {
      var n := |run| - 1;
      RunSplit(s0, run, n);
      var s, t := Final(s0, run[..n]), run[n];
      assert run[n..] == [t] && [t][1..] == [];
      EntryStep(s, t, c);
      if s.clients[c].pc == Idle {
        k := n;
      } else {
        k := CallWasEntered(s0, run[..n], c);
        assert run[..n][..k] == run[..k] && run[..n][k] == run[k];
      }
    }
  }

  lemma EntryStep(s: State, t: Step, c: Task)
    requires Enabled(s, t) && c in Apply(s, t).clients && Apply(s, t).clients[c].pc != Idle
    ensures c in s.clients && s.clients[c].serial == Apply(s, t).clients[c].serial
    ensures s.clients[c].pc == Idle ==>
              t.Call? && t.c == c && t.hasParams && t.hasReply && t.msg == Apply(s, t).clients[c].msg
    ensures s.clients[c].pc != Idle ==> s.clients[c].msg == Apply(s, t).clients[c].msg
  {
    if OffClient(t) {
      OffClientEntry(s, t, c);
    } else if t.Call? || t.AcquirePermit? || t.Snapshot? || t.SnapshotAndClaim? || t.Claim? || t.ReleasePermit? {
      assert t.c in s.clients;
    } else {
      OnSlotEntry(s, t, c);
    }
  }

  lemma OffClientEntry(s: State, t: Step, c: Task)
    requires Enabled(s, t) && OffClient(t) && c in Apply(s, t).clients
    ensures c in s.clients && s.clients[c].(threadFlag := true) == Apply(s, t).clients[c].(threadFlag := true)
  {
  }

  lemma OnSlotEntry(s: State, t: Step, c: Task)
    requires Enabled(s, t) && c in Apply(s, t).clients
    requires t.FillMsg? || t.SetOwner? || t.PendSlot? || t.Wake? || t.Check? || t.Read? || t.Disown? || t.Free?
    ensures c in s.clients && s.clients[c].serial == Apply(s, t).clients[c].serial
    ensures s.clients[c].msg == Apply(s, t).clients[c].msg && (s.clients[c].pc == Idle ==> Apply(s, t).clients[c].pc == Idle)
  {
  }
}
