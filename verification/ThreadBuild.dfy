/**
 The mailbox-thread build: clients queue requests, one mailbox thread moves them into slots, the
 secure side answers, and an interrupt handler writes the replies and wakes the owners.

 Each critical section, and each access to memory shared between tasks, is one atomic step; the
 steps of all parties interleave freely. Three components of the state exist only to state
 properties: `log`, `wild` and `missed`.
 */
module ThreadBuild {
  import opened Histories
  import opened MailboxTypes
  import opened Wrappers

  // The address of a client's stack variables. Memory is reached through `task` alone; `serial`
  // records which call of that task the address was taken in.
  type Addr = CallId

  datatype ClientPc = Idle | Sending | Checking | Waiting

  // A client task: the arguments and locals of its current call, and its sticky thread flag.
  datatype Client = Client(
    pc: ClientPc, serial: nat, msg: Msg, replyCell: int, wokenFlag: bool, threadFlag: bool, ret: int)
  {
    predicate InCall() { pc != Idle }
  }

  datatype Request = Request(
    callType: bv32, paramsPtr: Addr, clientId: int, owner: Task, reply: Addr, wokenFlag: Addr)

  datatype Slot = Slot(
    msg: Msg, returnVal: int, owner: Option<Task>, reply: Option<Addr>, wokenFlag: Option<Addr>)

  datatype Mailbox = Mailbox(
    empty: set<SlotIdx>, pend: set<SlotIdx>, replied: set<SlotIdx>, slots: map<SlotIdx, Slot>, isFull: bool)

  datatype ThreadPc =
    | Receiving
    | Snapshotting
    | MarkingFull
    | Sleeping
    | ClearingFull
    | Claiming(status: set<SlotIdx>)
    | FillingMsg(idx: SlotIdx)
    | FillingReply(idx: SlotIdx)
    | Pending(idx: SlotIdx)

  datatype SecurePc = Handling | Answered

  // The interrupt handler: the slots still to deliver and those delivered by this pass.
  datatype IsrPc = Quiet | Writing | Flagging(idx: SlotIdx) | Waking(idx: SlotIdx) | Releasing | CheckingFull
  datatype Isr = Isr(pc: IsrPc, snapshot: set<SlotIdx>, remaining: set<SlotIdx>, complete: set<SlotIdx>)

  datatype State = State(
    all: set<SlotIdx>,
    clients: map<Task, Client>,
    queue: seq<Request>,
    thread: ThreadPc,
    req: Option<Request>,
    threadFlag: bool,
    mbox: Mailbox,
    secure: map<SlotIdx, SecurePc>,
    isr: Isr,
    log: seq<Event>,
    wild: bool,
    missed: bool)

  // An address is live while the task it points into is still inside the call it was taken in.
  predicate Live(s: State, a: Addr) {
    a.task in s.clients && s.clients[a.task].InCall() && s.clients[a.task].serial == a.serial
  }

  predicate LiveOpt(s: State, a: Option<Addr>) {
    a.Some? && Live(s, a.value)
  }

  // ---------- initial states ----------

  predicate Init(s: State) {
    && s.all != {}
    && (forall c | c in s.clients :: s.clients[c].pc == Idle && s.clients[c].serial == 0)
    && s.queue == [] && s.thread == Receiving && s.req == None
    && s.mbox.empty == s.all && s.mbox.pend == {} && s.mbox.replied == {} && s.mbox.slots.Keys == s.all
    && !s.mbox.isFull
    && s.secure == map[]
    && s.isr == Isr(Quiet, {}, {}, {})
    && s.log == [] && !s.wild && !s.missed
  }

  // ---------- the steps ----------

  datatype Step =
    | ClientCall(c: Task, msg: Msg, hasParams: bool, hasReply: bool, oldReply: int)
    | ClientSend(c: Task)
    | ClientCheck(c: Task)
    | ClientWake(c: Task)
    | OtherFlag(c: Task)
    | ThreadReceive
    | ThreadSnapshot
    | ThreadMarkFull
    | ThreadWake
    | ThreadOtherFlag
    | ThreadClearFull
    | ThreadClaim(idx: SlotIdx)
    | ThreadFillMsg
    | ThreadFillReply
    | ThreadPend
    | SecureTake(idx: SlotIdx)
    | SecureAnswer(idx: SlotIdx, value: int)
    | SecureReply(idx: SlotIdx)
    | IsrEnter
    | IsrWrite(idx: SlotIdx)
    | IsrFlag
    | IsrWake
    | IsrRelease
    | IsrCheckFull

  function SetClient(s: State, c: Task, k: Client): State {
    s.(clients := s.clients[c := k])
  }

  function SetSlot(m: Mailbox, i: SlotIdx, k: Slot): Mailbox {
    m.(slots := m.slots[i := k])
  }

  // A client enters tfm_ns_mailbox_client_call. The serial is the number of calls it has finished.
  function DoClientCall(s: State, c: Task, msg: Msg, hasParams: bool, hasReply: bool, oldReply: int): State
    requires c in s.clients
  {
    var k := s.clients[c];
    if !hasParams || !hasReply then
      SetClient(s, c, k.(ret := INVAL_PARAMS))
    else
      SetClient(s, c, k.(pc := Sending, msg := msg, replyCell := oldReply, wokenFlag := false))
  }

  function DoClientSend(s: State, c: Task): State
    requires c in s.clients
  {
    var k := s.clients[c];
    var here := CallId(c, k.serial);
    var r := Request(k.msg.callType, here, k.msg.clientId, c, here, here);
    SetClient(s, c, k.(pc := Checking)).(queue := s.queue + [r], log := s.log + [Accept(here, k.msg)])
  }

  // One pass of the waiting loop: leave the call when the flag is up, otherwise go to sleep.
  function DoClientCheck(s: State, c: Task): State
    requires c in s.clients
  {
    var k := s.clients[c];
    if k.wokenFlag then
      SetClient(s, c, k.(pc := Idle, serial := k.serial + 1, ret := SUCCESS))
        .(log := s.log + [Return(CallId(c, k.serial), k.replyCell)])
    else
      SetClient(s, c, k.(pc := Waiting))
  }

  function DoClientWake(s: State, c: Task): State
    requires c in s.clients
  {
    SetClient(s, c, s.clients[c].(pc := Checking, threadFlag := false))
  }

  function DoOtherFlag(s: State, c: Task): State
    requires c in s.clients
  {
    SetClient(s, c, s.clients[c].(threadFlag := true))
  }

  function DoThreadReceive(s: State): State
    requires s.queue != []
  {
    s.(thread := Snapshotting, req := Some(s.queue[0]), queue := s.queue[1..])
  }

  function DoThreadSnapshot(s: State): State {
    if s.mbox.empty == {} then s.(thread := MarkingFull, missed := false)
    else s.(thread := Claiming(s.mbox.empty))
  }

  function DoThreadClaim(s: State, idx: SlotIdx): State {
    s.(thread := FillingMsg(idx), mbox := s.mbox.(empty := s.mbox.empty - {idx}))
  }

  // Copies the request's parameters out of the client's memory.
  function DoThreadFillMsg(s: State): State
    requires s.thread.FillingMsg? && s.req.Some? && s.thread.idx in s.mbox.slots
  {
    var i, r := s.thread.idx, s.req.value;
    var params := if r.paramsPtr.task in s.clients then s.clients[r.paramsPtr.task].msg.params else [];
    s.(thread := FillingReply(i),
       mbox := SetSlot(s.mbox, i, s.mbox.slots[i].(msg := Msg(r.callType, params, r.clientId))),
       wild := s.wild || !Live(s, r.paramsPtr))
  }

  function DoThreadFillReply(s: State): State
    requires s.thread.FillingReply? && s.req.Some? && s.thread.idx in s.mbox.slots
  {
    var i, r := s.thread.idx, s.req.value;
    s.(thread := Pending(i),
       mbox := SetSlot(s.mbox, i, s.mbox.slots[i].(
         owner := Some(r.owner), reply := Some(r.reply), wokenFlag := Some(r.wokenFlag))))
  }

  function DoThreadPend(s: State): State
    requires s.thread.Pending? && s.req.Some? && s.thread.idx in s.mbox.slots
  {
    var i := s.thread.idx;
    s.(thread := Receiving, req := None, mbox := s.mbox.(pend := s.mbox.pend + {i}),
       log := s.log + [Pend(s.req.value.reply, i, s.mbox.slots[i].msg)])
  }

  // The secure side's contract: it takes a pending slot once, writes return_val, then marks it replied.
  function DoSecureTake(s: State, i: SlotIdx): State
    requires i in s.mbox.slots && s.mbox.slots[i].reply.Some?
  {
    var k := s.mbox.slots[i];
    s.(mbox := s.mbox.(pend := s.mbox.pend - {i}), secure := s.secure[i := Handling],
       log := s.log + [Take(k.reply.value, i, k.msg)])
  }

  function DoSecureAnswer(s: State, i: SlotIdx, v: int): State
    requires i in s.mbox.slots && s.mbox.slots[i].reply.Some?
  {
    var k := s.mbox.slots[i];
    s.(mbox := SetSlot(s.mbox, i, k.(returnVal := v)), secure := s.secure[i := Answered],
       log := s.log + [Answer(k.reply.value, i, v)])
  }

  function DoSecureReply(s: State, i: SlotIdx): State {
    s.(mbox := s.mbox.(replied := s.mbox.replied + {i}), secure := s.secure - {i})
  }

  function DoIsrEnter(s: State): State {
    var snap := s.mbox.replied;
    if snap == {} then s
    else s.(mbox := s.mbox.(replied := s.mbox.replied - snap), isr := Isr(Writing, snap, snap, {}))
  }

  // Writes the return value through the slot's reply pointer, if it is not null.
  function DoIsrWrite(s: State, i: SlotIdx): State
    requires i in s.mbox.slots
  {
    var k := s.mbox.slots[i];
    var s1 := s.(isr := s.isr.(pc := Flagging(i)));
    match k.reply
    case None => s1
    case Some(a) =>
      var s2 := s1.(wild := s.wild || !Live(s, a), log := s.log + [Deliver(a, k.returnVal)]);
      if a.task in s.clients
      then SetClient(s2, a.task, s.clients[a.task].(replyCell := k.returnVal))
      else s2
  }

  // Raises the owner's woken flag through a pointer that is not checked for null.
  function DoIsrFlag(s: State): State
    requires s.isr.pc.Flagging? && s.isr.pc.idx in s.mbox.slots
  {
    var i := s.isr.pc.idx;
    var p := s.mbox.slots[i].wokenFlag;
    var s1 := s.(isr := s.isr.(pc := Waking(i)), wild := s.wild || !LiveOpt(s, p));
    if p.Some? && p.value.task in s.clients
    then SetClient(s1, p.value.task, s.clients[p.value.task].(wokenFlag := true))
    else s1
  }

  function DoIsrWake(s: State): State
    requires s.isr.pc.Waking? && s.isr.pc.idx in s.mbox.slots
  {
    var i := s.isr.pc.idx;
    var o := s.mbox.slots[i].owner;
    var left := s.isr.remaining - {i};
    var s1 := s.(isr := s.isr.(
      pc := if left == {} then Releasing else Writing, remaining := left, complete := s.isr.complete + {i}));
    if o.Some? && o.value in s.clients
    then SetClient(s1, o.value, s.clients[o.value].(threadFlag := true))
    else s1
  }

  function DoIsrRelease(s: State): State {
    s.(mbox := s.mbox.(empty := s.mbox.empty + s.isr.complete),
       isr := s.isr.(pc := CheckingFull, snapshot := {}, complete := {}))
  }

  // `missed` notes a pass that ends between the thread's failed snapshot and `is_full = true`
  // while some slot is empty.
  function DoIsrCheckFull(s: State): State {
    s.(isr := Isr(Quiet, {}, {}, {}),
       threadFlag := s.threadFlag || s.mbox.isFull,
       missed := s.missed || (s.thread == MarkingFull && !s.mbox.isFull && s.mbox.empty != {}))
  }

  predicate Enabled(s: State, t: Step) {
    match t
    case ClientCall(c, _, _, _, _) => c in s.clients && s.clients[c].pc == Idle
    case ClientSend(c) => c in s.clients && s.clients[c].pc == Sending && |s.queue| < |s.all|
    case ClientCheck(c) => c in s.clients && s.clients[c].pc == Checking
    case ClientWake(c) => c in s.clients && s.clients[c].pc == Waiting && s.clients[c].threadFlag
    case OtherFlag(c) => c in s.clients
    case ThreadReceive => s.thread == Receiving && s.queue != []
    case ThreadSnapshot => s.thread == Snapshotting
    case ThreadMarkFull => s.thread == MarkingFull
    case ThreadWake => s.thread == Sleeping && s.threadFlag
    case ThreadOtherFlag => true
    case ThreadClearFull => s.thread == ClearingFull
    case ThreadClaim(i) => s.thread.Claiming? && IsLowest(i, s.thread.status)
    case ThreadFillMsg => s.thread.FillingMsg? && s.req.Some? && s.thread.idx in s.mbox.slots
    case ThreadFillReply => s.thread.FillingReply? && s.req.Some? && s.thread.idx in s.mbox.slots
    case ThreadPend => s.thread.Pending? && s.req.Some? && s.thread.idx in s.mbox.slots
    case SecureTake(i) => i in s.mbox.pend && i in s.mbox.slots && s.mbox.slots[i].reply.Some?
    case SecureAnswer(i, _) =>
      i in s.secure && s.secure[i] == Handling && i in s.mbox.slots && s.mbox.slots[i].reply.Some?
    case SecureReply(i) => i in s.secure && s.secure[i] == Answered
    case IsrEnter => s.isr.pc == Quiet
    case IsrWrite(i) => s.isr.pc == Writing && IsLowest(i, s.isr.remaining) && i in s.mbox.slots
    case IsrFlag => s.isr.pc.Flagging? && s.isr.pc.idx in s.mbox.slots
    case IsrWake => s.isr.pc.Waking? && s.isr.pc.idx in s.mbox.slots
    case IsrRelease => s.isr.pc == Releasing
    case IsrCheckFull => s.isr.pc == CheckingFull
  }

  function Apply(s: State, t: Step): State
    requires Enabled(s, t)
  {
    match t
    case ClientCall(c, msg, hasParams, hasReply, oldReply) => DoClientCall(s, c, msg, hasParams, hasReply, oldReply)
    case ClientSend(c) => DoClientSend(s, c)
    case ClientCheck(c) => DoClientCheck(s, c)
    case ClientWake(c) => DoClientWake(s, c)
    case OtherFlag(c) => DoOtherFlag(s, c)
    case ThreadReceive => DoThreadReceive(s)
    case ThreadSnapshot => DoThreadSnapshot(s)
    case ThreadMarkFull => s.(thread := Sleeping, mbox := s.mbox.(isFull := true))
    case ThreadWake => s.(thread := ClearingFull, threadFlag := false)
    case ThreadOtherFlag => s.(threadFlag := true)
    case ThreadClearFull => s.(thread := Snapshotting, mbox := s.mbox.(isFull := false))
    case ThreadClaim(i) => DoThreadClaim(s, i)
    case ThreadFillMsg => DoThreadFillMsg(s)
    case ThreadFillReply => DoThreadFillReply(s)
    case ThreadPend => DoThreadPend(s)
    case SecureTake(i) => DoSecureTake(s, i)
    case SecureAnswer(i, v) => DoSecureAnswer(s, i, v)
    case SecureReply(i) => DoSecureReply(s, i)
    case IsrEnter => DoIsrEnter(s)
    case IsrWrite(i) => DoIsrWrite(s, i)
    case IsrFlag => DoIsrFlag(s)
    case IsrWake => DoIsrWake(s)
    case IsrRelease => DoIsrRelease(s)
    case IsrCheckFull => DoIsrCheckFull(s)
  }

  // run is a legal sequence of steps from s.
  predicate ValidRun(s: State, run: seq<Step>)
    decreases |run|
  {
    run == [] || (Enabled(s, run[0]) && ValidRun(Apply(s, run[0]), run[1..]))
  }

  function Final(s: State, run: seq<Step>): State
    requires ValidRun(s, run)
    decreases |run|
  {
    if run == [] then s else Final(Apply(s, run[0]), run[1..])
  }

  // ---------- runs ----------

  lemma StayHere(m: State)
    ensures ValidRun(m, []) && Final(m, []) == m
  {
  }

  lemma EmptyRun(s: State, t: Step)
    requires Enabled(s, t)
    ensures ValidRun(s, [t]) && Final(s, [t]) == Apply(s, t)
  {
    hide Apply, Enabled;
    assert [t][1..] == [];
  }

  // Extending a run by one step.
  lemma {:induction false} RunThen(s: State, run: seq<Step>, t: Step)
    requires ValidRun(s, run) && Enabled(Final(s, run), t)
    ensures ValidRun(s, run + [t]) && Final(s, run + [t]) == Apply(Final(s, run), t)
    decreases |run|
  {
    hide Apply, Enabled;
    if run == [] {
      EmptyRun(s, t);
      assert run + [t] == [t];
    } else {
      RunThen(Apply(s, run[0]), run[1..], t);
      assert (run + [t])[1..] == run[1..] + [t];
    }
  }

  lemma {:induction false} RunConcat(s: State, run: seq<Step>, more: seq<Step>)
    requires ValidRun(s, run) && ValidRun(Final(s, run), more)
    ensures ValidRun(s, run + more) && Final(s, run + more) == Final(Final(s, run), more)
    decreases |run|
  {
    hide Apply, Enabled;
    if run == [] {
      assert run + more == more;
    } else {
      RunConcat(Apply(s, run[0]), run[1..], more);
      assert (run + more)[1..] == run[1..] + more;
    }
  }

  // A run is the run up to any of its steps, and the run from there.
  lemma {:induction false} RunSplit(s: State, run: seq<Step>, k: nat)
    requires ValidRun(s, run) && k <= |run|
    ensures ValidRun(s, run[..k]) && ValidRun(Final(s, run[..k]), run[k..])
    ensures Final(s, run) == Final(Final(s, run[..k]), run[k..])
    ensures k < |run| ==> Enabled(Final(s, run[..k]), run[k])
    decreases k
  {
    hide Apply, Enabled;
    if k == 0 {
      StayHere(s);
      assert run[0..] == run;
    } else {
      RunSplit(Apply(s, run[0]), run[1..], k - 1);
      assert run[..k][1..] == run[1..][..k - 1] && run[1..][k - 1..] == run[k..];
    }
  }
}
