/**
 The thread build seen by a caller: the arguments of a call, as the step that enters the call has
 them, against what the secure side receives for it and what the call returns.
 */
module ThreadBuildCalls {
  import opened Histories
  import opened MailboxTypes
  import opened Wrappers
  import opened ThreadBuild
  import opened ThreadBuildInv
  import opened ThreadBuildTheorems

  // Step k of the run enters call `serial` of task c with the message m.
  ghost predicate Enters(s0: State, run: seq<Step>, k: nat, c: Task, serial: nat, m: Msg)
    requires ValidRun(s0, run)
  {
    && k < |run| && run[k].ClientCall? && run[k].c == c && run[k].msg == m && run[k].hasParams && run[k].hasReply
    && ValidRun(s0, run[..k]) && c in Final(s0, run[..k]).clients
    && Final(s0, run[..k]).clients[c].serial == serial
  }

  // Every message on record for the call is m.
  ghost predicate AllCarry(log: seq<Event>, id: CallId, m: Msg) {
    forall e | e in log && e.id == id && (e.Accept? || e.Pend? || e.Take?) :: e.msg == m
  }

  // Call `serial` of c was entered with m, and its history begins with m if it has begun.
  ghost predicate EnteredWith(s: State, c: Task, serial: nat, m: Msg) {
    && c in s.clients && serial <= s.clients[c].serial
    && (s.clients[c].serial == serial ==> s.clients[c].pc != Idle && s.clients[c].msg == m)
    && var h := History(s.log, CallId(c, serial));
       h != [] ==> h[0].Accept? && h[0].msg == m
  }

  // What a step does to a client's call and to the log.
  ghost predicate Goes(s: State, s': State, c: Task)
    requires c in s.clients
  {
    && c in s'.clients && s.clients[c].serial <= s'.clients[c].serial
    && (s.clients[c].pc != Idle && s'.clients[c].serial == s.clients[c].serial ==>
          s'.clients[c].pc != Idle && s'.clients[c].msg == s.clients[c].msg)
    && LogGrows(s, s')
  }

  ghost predicate LogGrows(s: State, s': State) {
    s'.log == s.log || (|s'.log| == |s.log| + 1 && s'.log == s.log + [s'.log[|s.log|]])
  }

  // Where every client is in its call, and with which message, is as before.
  ghost predicate SameCalls(s: State, s': State) {
    && s'.clients.Keys == s.clients.Keys
    && forall c | c in s.clients ::
         && s'.clients[c].pc == s.clients[c].pc && s'.clients[c].serial == s.clients[c].serial
         && s'.clients[c].msg == s.clients[c].msg
  }

  ghost predicate ByTask(t: Step) {
    t.ClientCall? || t.ClientSend? || t.ClientCheck? || t.ClientWake?
  }

  // Writing to one client's memory outside its call's position and message.
  lemma OneClientKeeps(s: State, s': State, a: Task)
    requires a in s.clients && s'.clients.Keys == s.clients.Keys
    requires forall c | c in s.clients && c != a :: s'.clients[c] == s.clients[c]
    requires s'.clients[a].pc == s.clients[a].pc && s'.clients[a].serial == s.clients[a].serial
    requires s'.clients[a].msg == s.clients[a].msg
    ensures SameCalls(s, s')
  {
  }

  lemma WriteKeeps(s: State, i: SlotIdx)
    requires Enabled(s, IsrWrite(i))
    ensures SameCalls(s, DoIsrWrite(s, i)) && LogGrows(s, DoIsrWrite(s, i))
  {
    var s' := DoIsrWrite(s, i);
    var a := s.mbox.slots[i].reply;
    assert LogGrows(s, s');
    hide LogGrows, Enabled;
    if a.Some? && a.value.task in s.clients {
      hide SameCalls;
      OneClientKeeps(s, s', a.value.task);
    } else {
      assert s'.clients == s.clients;
    }
  }

  lemma FlagKeeps(s: State)
    requires Enabled(s, IsrFlag)
    ensures SameCalls(s, DoIsrFlag(s)) && LogGrows(s, DoIsrFlag(s))
  {
  }

  lemma WakeKeeps(s: State)
    requires Enabled(s, IsrWake)
    ensures SameCalls(s, DoIsrWake(s)) && LogGrows(s, DoIsrWake(s))
  {
  }

  lemma OtherKeeps(s: State, t: Step)
    requires Enabled(s, t) && !ByTask(t) && !t.IsrWrite? && t != IsrFlag && t != IsrWake
    ensures SameCalls(s, Apply(s, t)) && LogGrows(s, Apply(s, t))
  {
  }

  // Only the steps of the clients themselves move a client in its call.
  lemma OthersKeepCalls(s: State, t: Step)
    requires Enabled(s, t) && !ByTask(t)
    ensures SameCalls(s, Apply(s, t)) && LogGrows(s, Apply(s, t))
  {
    hide SameCalls, LogGrows, DoIsrWrite, DoIsrFlag, DoIsrWake;
    if t.IsrWrite? {
      WriteKeeps(s, t.idx);
    } else if t == IsrFlag {
      FlagKeeps(s);
    } else if t == IsrWake {
      WakeKeeps(s);
    } else {
      hide Apply, Enabled;
      OtherKeeps(s, t);
    }
  }

  lemma StepGoes(s: State, t: Step, c: Task)
    requires Enabled(s, t) && c in s.clients
    ensures Goes(s, Apply(s, t), c)
  {
    if ByTask(t) {
      ClientGoes(s, t, c);
    } else {
      hide Apply, Enabled;
      OthersKeepCalls(s, t);
    }
  }

  lemma ClientGoes(s: State, t: Step, c: Task)
    requires Enabled(s, t) && c in s.clients && ByTask(t)
    ensures Goes(s, Apply(s, t), c)
  {
  }

  // The history of one call after a step, by the invariant.
  lemma HistoryGrows(s: State, s': State, id: CallId)
    requires LogGrows(s, s')
    ensures
      var h, h' := History(s.log, id), History(s'.log, id);
      h' == h || (|h'| == |h| + 1 && h <= h')
  {
    if s'.log != s.log {
      HistoryAppend(s.log, s'.log[|s.log|]);
    }
  }

  lemma HistoryFacts(s: State, id: CallId)
    requires Inv(s) && id.task in s.clients
    ensures
      var h, k := History(s.log, id), s.clients[id.task];
      && (id.serial < k.serial ==> |h| == 6)
      && (id.serial == k.serial && h != [] ==> h[0].Accept? && h[0].msg == k.msg)
  {
    hide Shape, IsrOk, ThreadOk, QueueOk, HeldOk, SlotsOk, WindowOk, History;
    assert PastOk(s.clients, id, History(s.log, id));
    assert ClientOk(s.clients[id.task], History(s.log, CallId(id.task, s.clients[id.task].serial)), BeingWoken(s, id.task));
  }

  lemma EnteredStep(s: State, t: Step, c: Task, serial: nat, m: Msg)
    requires Inv(s) && Enabled(s, t) && EnteredWith(s, c, serial, m)
    ensures EnteredWith(Apply(s, t), c, serial, m)
  {
    hide Inv, Apply, Enabled, History;
    var s' := Apply(s, t);
    var id := CallId(c, serial);
    StepInv(s, t);
    StepGoes(s, t, c);
    HistoryGrows(s, s', id);
    HistoryFacts(s, id);
    HistoryFacts(s', id);
  }

  lemma {:induction false} EnteredRun(s: State, run: seq<Step>, c: Task, serial: nat, m: Msg)
    requires Inv(s) && ValidRun(s, run) && EnteredWith(s, c, serial, m)
    ensures Inv(Final(s, run)) && EnteredWith(Final(s, run), c, serial, m)
    decreases |run|
  {
    if run != [] {
      hide Inv, Apply, Enabled, EnteredWith;
      StepInv(s, run[0]);
      EnteredStep(s, run[0], c, serial, m);
      EnteredRun(Apply(s, run[0]), run[1..], c, serial, m);
    }
  }

  lemma EntersWith(s: State, t: Step)
    requires Inv(s) && Enabled(s, t) && t.ClientCall? && t.hasParams && t.hasReply
    ensures EnteredWith(Apply(s, t), t.c, s.clients[t.c].serial, t.msg)
  {
    hide Shape, IsrOk, ThreadOk, QueueOk, HeldOk, SlotsOk, HistoriesOk, WindowOk, History;
    assert ClientOk(s.clients[t.c], History(s.log, CallId(t.c, s.clients[t.c].serial)), BeingWoken(s, t.c));
  }

  lemma EnteredAtEnd(s0: State, run: seq<Step>, k: nat, c: Task, serial: nat, m: Msg)
    requires Init(s0) && ValidRun(s0, run) && Enters(s0, run, k, c, serial, m)
    ensures Inv(Final(s0, run)) && EnteredWith(Final(s0, run), c, serial, m)
  {
    hide Init, Inv, Apply, Enabled, EnteredWith;
    RunSplit(s0, run, k);
    var s := Final(s0, run[..k]);
    InvAlong(s0, run[..k]);
    EntersWith(s, run[k]);
    StepInv(s, run[k]);
    var rest := run[k..];
    assert rest[0] == run[k];
    EnteredRun(Apply(s, run[k]), rest[1..], c, serial, m);
  }

  lemma InvAlong(s0: State, run: seq<Step>)
    requires Init(s0) && ValidRun(s0, run)
    ensures Inv(Final(s0, run))
  {
    hide Inv, NothingLost, InOrder, Init;
    assert Reachable(Final(s0, run));
    ReachableInv(Final(s0, run));
  }

  lemma CanonicalCarries(s: State, id: CallId, m: Msg)
    requires Inv(s)
    requires var h := History(s.log, id); h != [] ==> h[0].Accept? && h[0].msg == m
    ensures AllCarry(s.log, id, m)
  {
    hide Shape, IsrOk, ThreadOk, QueueOk, HeldOk, SlotsOk, ClientsOk, WindowOk, History;
    var h := History(s.log, id);
    assert PastOk(s.clients, id, h);
    forall e | e in s.log && e.id == id && (e.Accept? || e.Pend? || e.Take?) ensures e.msg == m {
      var j :| 0 <= j < |s.log| && s.log[j] == e;
      InHistory(s.log, j);
      var n :| 0 <= n < |h| && h[n] == e;
    }
  }

  // In every run, whatever the parties do: once a call is entered with the message m, every accept,
  // pend and take of that call carries m.
  lemma CallCarriesItsArguments(s0: State, run: seq<Step>, k: nat, c: Task, serial: nat, m: Msg)
    requires Init(s0) && ValidRun(s0, run) && Enters(s0, run, k, c, serial, m)
    ensures AllCarry(Final(s0, run).log, CallId(c, serial), m)
  {
    hide Inv, AllCarry;
    EnteredAtEnd(s0, run, k, c, serial, m);
    CanonicalCarries(Final(s0, run), CallId(c, serial), m);
  }

  // Every call under way was entered by a step of the run with both pointers.
  lemma {:induction false} CallWasEntered(s0: State, run: seq<Step>, c: Task) returns (k: nat)
    requires Init(s0) && ValidRun(s0, run) && c in Final(s0, run).clients && Final(s0, run).clients[c].pc != Idle
    ensures Enters(s0, run, k, c, Final(s0, run).clients[c].serial, Final(s0, run).clients[c].msg)
    decreases |run|
  {
    hide Apply, Enabled;
    if run == [] {
      assert false;
    } else {
      var n := |run| - 1;
      RunSplit(s0, run, n);
      var s, t := Final(s0, run[..n]), run[n];
      assert run[n..] == [t];
      EmptyRun(s, t);
      EntryStep(s, t, c);
      if t.ClientCall? && t.c == c && s.clients[c].pc == Idle {
        k := n;
      } else {
        k := CallWasEntered(s0, run[..n], c);
        assert run[..n][..k] == run[..k] && run[..n][k] == run[k];
      }
    }
  }

  lemma EntryStep(s: State, t: Step, c: Task)
    requires Enabled(s, t) && c in Apply(s, t).clients && Apply(s, t).clients[c].pc != Idle
    ensures c in s.clients && s.clients[c].serial == Apply(s, t).clients[c].serial
    ensures s.clients[c].pc == Idle ==>
              t.ClientCall? && t.c == c && t.hasParams && t.hasReply && t.msg == Apply(s, t).clients[c].msg
    ensures s.clients[c].pc != Idle ==> s.clients[c].msg == Apply(s, t).clients[c].msg
  {
    if !ByTask(t) {
      hide Apply, Enabled;
      OthersKeepCalls(s, t);
    }
  }

  // A call that returns success was entered with some message m, and hands its caller the value the
  // secure side produced when it took m for this very call; the whole history of the call is accept,
  // pend, take, answer, deliver, return, each once.
  lemma SuccessReturnsOwnAnswer(s0: State, run: seq<Step>, k: nat, c: Task, serial: nat, m: Msg)
    requires Init(s0) && ValidRun(s0, run) && Enters(s0, run, k, c, serial, m)
    requires Enabled(Final(s0, run), ClientCheck(c))
    requires Final(s0, run).clients[c].serial == serial && Final(s0, run).clients[c].wokenFlag
    ensures
      var s' := Apply(Final(s0, run), ClientCheck(c));
      var h := History(s'.log, CallId(c, serial));
      && s'.clients[c].ret == SUCCESS && s'.clients[c].pc == Idle
      && |h| == 6 && h[0].Accept? && h[1].Pend? && h[2].Take? && h[3].Answer? && h[4].Deliver? && h[5].Return?
      && h[0].msg == h[1].msg == h[2].msg == m
      && h[1].slot == h[2].slot == h[3].slot
      && s'.clients[c].replyCell == h[3].value == h[4].value == h[5].value
  {
    hide Inv, Init, History;
    var s := Final(s0, run);
    EnteredAtEnd(s0, run, k, c, serial, m);
    assert Reachable(s);
    FlaggedCallReturns(s, c);
  }

  // A call without parameters or without a place for the reply is refused at once and leaves no trace.
  lemma IncompleteCallRefused(s: State, c: Task, m: Msg, hasParams: bool, hasReply: bool, oldReply: int)
    requires Enabled(s, ClientCall(c, m, hasParams, hasReply, oldReply)) && !(hasParams && hasReply)
    ensures
      var s' := Apply(s, ClientCall(c, m, hasParams, hasReply, oldReply));
      && s'.clients[c].ret == INVAL_PARAMS && s'.clients[c].pc == Idle
      && s'.clients[c].replyCell == s.clients[c].replyCell && s'.clients[c].serial == s.clients[c].serial
      && (forall d | d in s.clients && d != c :: d in s'.clients && s'.clients[d] == s.clients[d])
      && s'.log == s.log && s'.queue == s.queue && s'.mbox == s.mbox && s'.secure == s.secure
      && s'.thread == s.thread && s'.isr == s.isr
  {
  }
}
