/**
 The semaphore build: each client takes a permit, claims a slot itself, waits for the interrupt
 handler to flag the slot, reads the return value and frees the slot.

 `atomicAcquire` chooses between the code as written, where the snapshot of the empty slots and the
 claim are two critical sections, and a variant in which they are one. `stamp` and `log` exist only
 to state properties: a stamp is written together with a slot's message and names the call the
 message belongs to.
 */
module SemaphoreBuild {
  import opened Histories
  import opened MailboxTypes
  import opened Wrappers

  datatype ClientPc =
    | Idle
    | Acquiring
    | Snapshotting
    | Claiming(status: set<SlotIdx>)
    | FillingMsg(idx: SlotIdx)
    | SettingOwner(idx: SlotIdx)
    | Pending(idx: SlotIdx)
    | Waiting(idx: SlotIdx)
    | Checking(idx: SlotIdx)
    | Reading(idx: SlotIdx)
    | Disowning(idx: SlotIdx)
    | Freeing(idx: SlotIdx)
    | Leaving(code: int)
  {
    // The task is between taking and returning its permit.
    predicate Holds() { !Idle? && !Acquiring? }

    // The task has claimed slot idx and not freed it.
    predicate HasSlot() {
      Holds() && !Snapshotting? && !Claiming? && !Leaving?
    }

    predicate Awaits() { Waiting? || Checking? }
  }

  datatype Client = Client(
    pc: ClientPc, serial: nat, msg: Msg, replyCell: int, replyBuf: int, threadFlag: bool, ret: int)

  datatype Slot = Slot(msg: Msg, stamp: CallId, returnVal: int, owner: Option<Task>, isWoken: bool)

  datatype SecurePc = Handling | Answered

  datatype IsrPc = Quiet | Flagging | Waking(idx: SlotIdx)

  datatype State = State(
    all: set<SlotIdx>,
    atomicAcquire: bool,
    permits: int,
    clients: map<Task, Client>,
    empty: set<SlotIdx>,
    pend: set<SlotIdx>,
    replied: set<SlotIdx>,
    slots: map<SlotIdx, Slot>,
    secure: map<SlotIdx, SecurePc>,
    isr: IsrPc,
    remaining: set<SlotIdx>,
    log: seq<Event>)

  predicate Init(s: State) {
    && s.all != {} && s.permits == |s.all|
    && (forall c | c in s.clients :: s.clients[c].pc == Idle && s.clients[c].serial == 0)
    && s.empty == s.all && s.pend == {} && s.replied == {} && s.slots.Keys == s.all
    && (forall i | i in s.slots :: !s.slots[i].isWoken && s.slots[i].owner == None)
    && s.secure == map[] && s.isr == Quiet && s.remaining == {} && s.log == []
  }

  datatype Step =
    | Call(c: Task, msg: Msg, hasParams: bool, hasReply: bool)
    | AcquirePermit(c: Task)
    | Snapshot(c: Task)
    | SnapshotAndClaim(c: Task, idx: SlotIdx)
    | Claim(c: Task, idx: SlotIdx)
    | FillMsg(c: Task)
    | SetOwner(c: Task)
    | PendSlot(c: Task)
    | Wake(c: Task)
    | Check(c: Task)
    | Read(c: Task)
    | Disown(c: Task)
    | Free(c: Task)
    | ReleasePermit(c: Task)
    | OtherFlag(c: Task)
    | SecureTake(idx: SlotIdx)
    | SecureAnswer(idx: SlotIdx, value: int)
    | SecureReply(idx: SlotIdx)
    | IsrEnter
    | IsrFlag(idx: SlotIdx)
    | IsrWake

  function SetClient(s: State, c: Task, k: Client): State {
    s.(clients := s.clients[c := k])
  }

  function SetPc(s: State, c: Task, pc: ClientPc): State
    requires c in s.clients
  {
    SetClient(s, c, s.clients[c].(pc := pc))
  }

  function SetSlot(s: State, i: SlotIdx, k: Slot): State {
    s.(slots := s.slots[i := k])
  }

  // The slot a client in a slot-owning program point works on.
  predicate AtSlot(s: State, c: Task) {
    c in s.clients && s.clients[c].pc.HasSlot() && s.clients[c].pc.idx in s.slots
  }

  predicate Enabled(s: State, t: Step) {
    match t
    case Call(c, _, _, _) => c in s.clients && s.clients[c].pc == Idle
    case AcquirePermit(c) => c in s.clients && s.clients[c].pc == Acquiring && s.permits > 0
    case Snapshot(c) =>
      c in s.clients && s.clients[c].pc == Snapshotting && (!s.atomicAcquire || s.empty == {})
    case SnapshotAndClaim(c, i) =>
      c in s.clients && s.clients[c].pc == Snapshotting && s.atomicAcquire && IsLowest(i, s.empty)
    case Claim(c, i) => c in s.clients && s.clients[c].pc.Claiming? && IsLowest(i, s.clients[c].pc.status)
    case FillMsg(c) => AtSlot(s, c) && s.clients[c].pc.FillingMsg?
    case SetOwner(c) => AtSlot(s, c) && s.clients[c].pc.SettingOwner?
    case PendSlot(c) => AtSlot(s, c) && s.clients[c].pc.Pending?
    case Wake(c) => AtSlot(s, c) && s.clients[c].pc.Waiting? && s.clients[c].threadFlag
    case Check(c) => AtSlot(s, c) && s.clients[c].pc.Checking?
    case Read(c) => AtSlot(s, c) && s.clients[c].pc.Reading?
    case Disown(c) => AtSlot(s, c) && s.clients[c].pc.Disowning?
    case Free(c) => AtSlot(s, c) && s.clients[c].pc.Freeing?
    case ReleasePermit(c) => c in s.clients && s.clients[c].pc.Leaving?
    case OtherFlag(c) => c in s.clients
    case SecureTake(i) => i in s.pend && i in s.slots
    case SecureAnswer(i, _) => i in s.secure && s.secure[i] == Handling && i in s.slots
    case SecureReply(i) => i in s.secure && s.secure[i] == Answered
    case IsrEnter => s.isr == Quiet
    case IsrFlag(i) => s.isr == Flagging && IsLowest(i, s.remaining) && i in s.slots
    case IsrWake => s.isr.Waking? && s.isr.idx in s.slots
  }

  // The steps of a client before it has a slot, and the release of its permit.
  function DoCall(s: State, c: Task, msg: Msg, hasParams: bool, hasReply: bool): State
    requires c in s.clients
  {
    if hasParams && hasReply then SetClient(s, c, s.clients[c].(pc := Acquiring, msg := msg, replyBuf := 0))
    else SetClient(s, c, s.clients[c].(ret := INVAL_PARAMS))
  }

  function DoAcquire(s: State, c: Task): State
    requires c in s.clients
  {
    SetPc(s, c, Snapshotting).(permits := s.permits - 1)
  }

  function DoSnapshot(s: State, c: Task): State
    requires c in s.clients
  {
    SetPc(s, c, if s.empty == {} then Leaving(QUEUE_FULL) else Claiming(s.empty))
  }

  function DoClaim(s: State, c: Task, i: SlotIdx): State
    requires c in s.clients
  {
    SetPc(s, c, FillingMsg(i)).(empty := s.empty - {i})
  }

  function DoRelease(s: State, c: Task): State
    requires c in s.clients && s.clients[c].pc.Leaving?
  {
    var k := s.clients[c];
    SetClient(s, c, k.(pc := Idle, serial := k.serial + 1, ret := k.pc.code)).(permits := s.permits + 1)
  }

  // The steps of a client on its slot.
  function DoFillMsg(s: State, c: Task): State
    requires AtSlot(s, c)
  {
    var k := s.clients[c];
    var i := k.pc.idx;
    SetSlot(SetPc(s, c, SettingOwner(i)), i, s.slots[i].(msg := k.msg, stamp := CallId(c, k.serial)))
  }

  function DoSetOwner(s: State, c: Task): State
    requires AtSlot(s, c)
  {
    var i := s.clients[c].pc.idx;
    SetSlot(SetPc(s, c, Pending(i)), i, s.slots[i].(owner := Some(c)))
  }

  function DoPend(s: State, c: Task): State
    requires AtSlot(s, c)
  {
    var i := s.clients[c].pc.idx;
    SetPc(s, c, Waiting(i))
      .(pend := s.pend + {i}, log := s.log + [Pend(CallId(c, s.clients[c].serial), i, s.slots[i].msg)])
  }

  function DoWake(s: State, c: Task): State
    requires AtSlot(s, c)
  {
    SetClient(s, c, s.clients[c].(pc := Checking(s.clients[c].pc.idx), threadFlag := false))
  }

  // mailbox_wait_reply_signal: tests and clears the slot's woken flag in one critical section.
  function DoCheck(s: State, c: Task): State
    requires AtSlot(s, c)
  {
    var i := s.clients[c].pc.idx;
    if s.slots[i].isWoken
    then SetSlot(SetPc(s, c, Reading(i)), i, s.slots[i].(isWoken := false))
    else SetPc(s, c, Waiting(i))
  }

  function DoRead(s: State, c: Task): State
    requires AtSlot(s, c)
  {
    var k := s.clients[c];
    SetClient(s, c, k.(pc := Disowning(k.pc.idx), replyBuf := s.slots[k.pc.idx].returnVal))
  }

  function DoDisown(s: State, c: Task): State
    requires AtSlot(s, c)
  {
    var i := s.clients[c].pc.idx;
    SetSlot(SetPc(s, c, Freeing(i)), i, s.slots[i].(owner := None))
  }

  // Frees the slot and hands the buffered value to the caller.
  function DoFree(s: State, c: Task): State
    requires AtSlot(s, c)
  {
    var k := s.clients[c];
    var i := k.pc.idx;
    SetSlot(SetClient(s, c, k.(pc := Leaving(SUCCESS), replyCell := k.replyBuf)), i, s.slots[i].(isWoken := false))
      .(empty := s.empty + {i}, log := s.log + [Return(CallId(c, k.serial), k.replyBuf)])
  }

  function DoSecureTake(s: State, i: SlotIdx): State
    requires i in s.slots
  {
    s.(pend := s.pend - {i}, secure := s.secure[i := Handling],
       log := s.log + [Take(s.slots[i].stamp, i, s.slots[i].msg)])
  }

  function DoSecureAnswer(s: State, i: SlotIdx, v: int): State
    requires i in s.slots
  {
    SetSlot(s, i, s.slots[i].(returnVal := v))
      .(secure := s.secure[i := Answered], log := s.log + [Answer(s.slots[i].stamp, i, v)])
  }

  function DoSecureReply(s: State, i: SlotIdx): State {
    s.(replied := s.replied + {i}, secure := s.secure - {i})
  }

  function DoIsrEnter(s: State): State {
    if s.replied == {} then s
    else s.(isr := Flagging, remaining := s.replied, replied := {})
  }

  function DoIsrFlag(s: State, i: SlotIdx): State
    requires i in s.slots
  {
    SetSlot(s, i, s.slots[i].(isWoken := true)).(isr := Waking(i))
  }

  function DoIsrWake(s: State): State
    requires s.isr.Waking? && s.isr.idx in s.slots
  {
    var i := s.isr.idx;
    var o := s.slots[i].owner;
    var left := s.remaining - {i};
    var s1 := s.(isr := if left == {} then Quiet else Flagging, remaining := left);
    if o.Some? && o.value in s.clients
    then SetClient(s1, o.value, s.clients[o.value].(threadFlag := true))
    else s1
  }

  function Apply(s: State, t: Step): State
    requires Enabled(s, t)
  {
    match t
    case Call(c, msg, hasParams, hasReply) => DoCall(s, c, msg, hasParams, hasReply)
    case AcquirePermit(c) => DoAcquire(s, c)
    case Snapshot(c) => DoSnapshot(s, c)
    case SnapshotAndClaim(c, i) => DoClaim(s, c, i)
    case Claim(c, i) => DoClaim(s, c, i)
    case FillMsg(c) => DoFillMsg(s, c)
    case SetOwner(c) => DoSetOwner(s, c)
    case PendSlot(c) => DoPend(s, c)
    case Wake(c) => DoWake(s, c)
    case Check(c) => DoCheck(s, c)
    case Read(c) => DoRead(s, c)
    case Disown(c) => DoDisown(s, c)
    case Free(c) => DoFree(s, c)
    case ReleasePermit(c) => DoRelease(s, c)
    case OtherFlag(c) => SetClient(s, c, s.clients[c].(threadFlag := true))
    case SecureTake(i) => DoSecureTake(s, i)
    case SecureAnswer(i, v) => DoSecureAnswer(s, i, v)
    case SecureReply(i) => DoSecureReply(s, i)
    case IsrEnter => DoIsrEnter(s)
    case IsrFlag(i) => DoIsrFlag(s, i)
    case IsrWake => DoIsrWake(s)
  }

  predicate ValidRun(s: State, run: seq<Step>)
    decreases |run|
  {
    run == [] || (Enabled(s, run[0]) && ValidRun(Apply(s, run[0]), run[1..]))
  }

  function Final(s: State, run: seq<Step>): State
    requires ValidRun(s, run)
    decreases |run|
  {
    if run == [] then s else Final(Apply(s, run[0]), run[1..])
  }

  // Extending a run by one step.
  lemma {:induction false} RunThen(s: State, run: seq<Step>, t: Step)
    requires ValidRun(s, run) && Enabled(Final(s, run), t)
    ensures ValidRun(s, run + [t]) && Final(s, run + [t]) == Apply(Final(s, run), t)
    decreases |run|
  {
    hide Apply, Enabled;
    if run == [] {
      assert run + [t] == [t];
      assert [t][1..] == [];
    } else {
      RunThen(Apply(s, run[0]), run[1..], t);
      assert (run + [t])[1..] == run[1..] + [t];
    }
  }

  lemma StayHere(s: State)
    ensures ValidRun(s, []) && Final(s, []) == s
  {
  }

  lemma {:induction false} RunConcat(s: State, run: seq<Step>, more: seq<Step>)
    requires ValidRun(s, run) && ValidRun(Final(s, run), more)
    ensures ValidRun(s, run + more) && Final(s, run + more) == Final(Final(s, run), more)
    decreases |run|
  {
    hide Apply, Enabled;
    if run == [] {
      assert run + more == more;
    } else {
      RunConcat(Apply(s, run[0]), run[1..], more);
      assert (run + more)[1..] == run[1..] + more;
    }
  }

  // A run is the run up to any of its steps, and the run from there.
  lemma {:induction false} RunSplit(s: State, run: seq<Step>, k: nat)
    requires ValidRun(s, run) && k <= |run|
    ensures ValidRun(s, run[..k]) && ValidRun(Final(s, run[..k]), run[k..])
    ensures Final(s, run) == Final(Final(s, run[..k]), run[k..])
    ensures k < |run| ==> Enabled(Final(s, run[..k]), run[k])
    decreases k
  {
    hide Apply, Enabled;
    if k == 0 {
      StayHere(s);
      assert run[0..] == run;
    } else {
      RunSplit(Apply(s, run[0]), run[1..], k - 1);
      assert run[..k][1..] == run[1..][..k - 1] && run[1..][k - 1..] == run[k..];
    }
  }
}
