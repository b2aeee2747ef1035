/**
 The mailbox without an operating system: one caller, one slot, no locks and no interrupt; the
 caller polls the replied bit of its slot and clears it. `accepted`, `taken`, `answers` and
 `returned` record what passed each point, to state properties.
 */
module BareMetalBuild {
  import opened MailboxTypes

  datatype Pc = Idle | Acquiring | Filling | Pending | Polling | Reading | Freeing | Failing

  datatype SecurePc = Away | Handling(msg: Msg) | Answered

  datatype State = State(
    pc: Pc,
    call: Msg,
    empty: bool,
    pend: bool,
    replied: bool,
    msg: Msg,
    returnVal: int,
    replyBuf: int,
    reply: int,
    ret: int,
    secure: SecurePc,
    accepted: seq<Msg>,
    taken: seq<Msg>,
    answers: seq<int>,
    returned: seq<int>)

  predicate Init(s: State) {
    && s.pc == Idle && s.empty && !s.pend && !s.replied && s.secure == Away
    && s.accepted == [] && s.taken == [] && s.answers == [] && s.returned == []
  }

  datatype Step =
    | Call(msg: Msg, hasParams: bool, hasReply: bool)
    | Acquire
    | FillMsg
    | Pend
    | Poll
    | Read
    | Free
    | Fail
    | SecureTake
    | SecureAnswer(value: int)
    | SecureReply

  predicate Enabled(s: State, t: Step) {
    match t
    case Call(_, _, _) => s.pc == Idle
    case Acquire => s.pc == Acquiring
    case FillMsg => s.pc == Filling
    case Pend => s.pc == Pending
    case Poll => s.pc == Polling
    case Read => s.pc == Reading
    case Free => s.pc == Freeing
    case Fail => s.pc == Failing
    case SecureTake => s.pend && s.secure == Away
    case SecureAnswer(_) => s.secure.Handling?
    case SecureReply => s.secure == Answered
  }

  function Apply(s: State, t: Step): State
    requires Enabled(s, t)
  {
    match t
    case Call(m, hasParams, hasReply) =>
      if hasParams && hasReply then s.(pc := Acquiring, call := m, replyBuf := 0, accepted := s.accepted + [m])
      else s.(ret := INVAL_PARAMS)
    case Acquire => if s.empty then s.(pc := Filling, empty := false) else s.(pc := Failing)
    case FillMsg => s.(pc := Pending, msg := s.call)
    case Pend => s.(pc := Polling, pend := true)
    // mailbox_wait_reply_signal without an operating system
    case Poll => if s.replied then s.(pc := Reading, replied := false) else s
    case Read => s.(pc := Freeing, replyBuf := s.returnVal)
    case Free => 
      s.(pc := Idle, empty := true, reply := s.replyBuf, ret := SUCCESS, returned := s.returned + [s.replyBuf])
    case Fail => s.(pc := Idle, ret := QUEUE_FULL)
    case SecureTake => s.(pend := false, secure := Handling(s.msg), taken := s.taken + [s.msg])
    case SecureAnswer(v) => s.(secure := Answered, returnVal := v, answers := s.answers + [v])
    case SecureReply => s.(secure := Away, replied := true)
  }

  predicate ValidRun(s: State, run: seq<Step>)
    decreases |run|
  {
    run == [] || (Enabled(s, run[0]) && ValidRun(Apply(s, run[0]), run[1..]))
  }

  function Final(s: State, run: seq<Step>): State
    requires ValidRun(s, run)
    decreases |run|
  {
    if run == [] then s else Final(Apply(s, run[0]), run[1..])
  }

  // How far the call under way has come: the slot is in one place, and the records agree with it.
  predicate Inv(s: State) {
    var n := |s.returned|;
    match s.pc
    case Idle => Rests(s) && |s.accepted| == n && |s.answers| == n
    case Acquiring => Rests(s) && Called(s) && |s.answers| == n
    case Filling => Owns(s) && s.secure == Away && !s.replied && |s.answers| == n
    case Pending => Owns(s) && s.msg == s.call && s.secure == Away && !s.replied && |s.answers| == n
    case Polling => Called(s) && !s.empty && InPoll(s)
    case Reading => Got(s) && HasAnswer(s)
    case Freeing => Got(s) && HasAnswer(s) && s.replyBuf == s.returnVal
    case Failing => false
  }

  predicate InPoll(s: State) {
    var n := |s.returned|;
    match s.secure
    case Handling(m) => !s.pend && !s.replied && m == s.call && |s.taken| == n + 1 && |s.answers| == n
    case Answered => !s.pend && !s.replied && HasAnswer(s)
    case Away =>
      if s.pend then !s.replied && s.msg == s.call && |s.taken| == n && |s.answers| == n
      else s.replied && HasAnswer(s)
  }

  predicate Rests(s: State) {
    s.empty && !s.pend && !s.replied && s.secure == Away && |s.taken| == |s.returned|
  }

  predicate Called(s: State) {
    |s.accepted| == |s.returned| + 1 && s.accepted[|s.returned|] == s.call
  }

  predicate Owns(s: State) {
    Called(s) && !s.empty && !s.pend && |s.taken| == |s.returned|
  }

  predicate Got(s: State) {
    Called(s) && !s.empty && !s.pend && !s.replied && s.secure == Away
  }

  predicate HasAnswer(s: State) {
    && |s.taken| == |s.answers| == |s.returned| + 1
    && s.answers[|s.returned|] == s.returnVal
  }

  // The records are prefixes of one another: the k-th message taken is the k-th accepted, and the
  // k-th value returned is the k-th answer.
  predicate Matched(s: State) {
    s.taken <= s.accepted && s.returned <= s.answers && |s.answers| <= |s.taken|
  }

  lemma StepInv(s: State, t: Step)
    requires Inv(s) && Matched(s) && Enabled(s, t)
    ensures Inv(Apply(s, t)) && Matched(Apply(s, t))
  {
  }

  lemma {:induction false} RunInv(s: State, run: seq<Step>)
    requires Inv(s) && Matched(s) && ValidRun(s, run)
    ensures Inv(Final(s, run)) && Matched(Final(s, run))
    decreases |run|
  {
    if run != [] {
      StepInv(s, run[0]);
      hide Inv, Matched, Apply, Enabled;
      RunInv(Apply(s, run[0]), run[1..]);
    }
  }

  // In every run: each call's message is taken once and unchanged, each call returns the answer to
  // its own message, the slot is never found taken, and between calls nothing is outstanding.
  lemma EachCallItsAnswer(s: State, run: seq<Step>)
    requires Init(s) && ValidRun(s, run)
    ensures Matched(Final(s, run)) && Final(s, run).pc != Failing
    ensures
      var f := Final(s, run);
      f.pc == Idle ==>
        && f.empty && !f.pend && !f.replied && f.secure == Away
        && f.taken == f.accepted && f.returned == f.answers && |f.returned| == |f.accepted|
  {
    RunInv(s, run);
  }

  // The caller polls for a reply that is on its way: either the secure side can move or the next
  // poll succeeds.
  lemma PollEnds(s: State, run: seq<Step>)
    requires Init(s) && ValidRun(s, run) && Final(s, run).pc == Polling
    ensures
      var f := Final(s, run);
      || (Enabled(f, Poll) && Apply(f, Poll).pc == Reading)
      || Enabled(f, SecureTake) || Enabled(f, SecureReply) || forall v :: Enabled(f, SecureAnswer(v))
  {
    RunInv(s, run);
  }

  // ---------------------------------------------------------------- one call, as its caller sees it

  lemma {:induction false} RunSplit(s: State, run: seq<Step>, k: nat)
    requires ValidRun(s, run) && k < |run|
    ensures ValidRun(s, run[..k]) && Enabled(Final(s, run[..k]), run[k])
    ensures ValidRun(Apply(Final(s, run[..k]), run[k]), run[k + 1..])
    ensures Final(s, run) == Final(Apply(Final(s, run[..k]), run[k]), run[k + 1..])
    decreases k
  {
    hide Apply, Enabled;
    if k > 0 {
      RunSplit(Apply(s, run[0]), run[1..], k - 1);
      assert run[..k][1..] == run[1..][..k - 1] && run[1..][k..] == run[k + 1..];
    }
  }

  // Step k of the run enters the call that n calls have returned before, with the message m.
  ghost predicate Enters(s0: State, run: seq<Step>, k: nat, n: nat, m: Msg)
    requires ValidRun(s0, run)
  {
    && k < |run| && run[k] == Call(m, true, true)
    && ValidRun(s0, run[..k]) && |Final(s0, run[..k]).returned| == n
  }

  lemma {:induction false} AcceptedStays(s: State, run: seq<Step>)
    requires ValidRun(s, run)
    ensures s.accepted <= Final(s, run).accepted
    decreases |run|
  {
    if run != [] {
      assert s.accepted <= Apply(s, run[0]).accepted;
      AcceptedStays(Apply(s, run[0]), run[1..]);
    }
  }

  lemma EnteredWith(s0: State, run: seq<Step>, k: nat, n: nat, m: Msg)
    requires Init(s0) && ValidRun(s0, run) && Enters(s0, run, k, n, m)
    ensures |Final(s0, run).accepted| > n && Final(s0, run).accepted[n] == m
  {
    RunSplit(s0, run, k);
    var s := Final(s0, run[..k]);
    RunInv(s0, run[..k]);
    AcceptedStays(Apply(s, run[k]), run[k + 1..]);
  }

  // The secure side takes for a call the very message the call was entered with. When the call ends
  // its caller gets success and the secure side's answer to that message.
  lemma SuccessReturnsOwnAnswer(s0: State, run: seq<Step>, k: nat, n: nat, m: Msg)
    requires Init(s0) && ValidRun(s0, run) && Enters(s0, run, k, n, m)
    ensures |Final(s0, run).taken| > n ==> Final(s0, run).taken[n] == m
    ensures Enabled(Final(s0, run), Free) && |Final(s0, run).returned| == n ==>
              var s, s' := Final(s0, run), Apply(Final(s0, run), Free);
              && s'.ret == SUCCESS && s'.pc == Idle && s'.empty
              && |s.answers| == |s.taken| == n + 1 && s.taken[n] == m && s'.reply == s.answers[n]
  {
    RunInv(s0, run);
    EnteredWith(s0, run, k, n, m);
  }

  // A call without parameters or without a place for the reply is refused and changes nothing else.
  lemma IncompleteCallRefused(s: State, m: Msg, hasParams: bool, hasReply: bool)
    requires Enabled(s, Call(m, hasParams, hasReply)) && !(hasParams && hasReply)
    ensures
      var s' := Apply(s, Call(m, hasParams, hasReply));
      s'.ret == INVAL_PARAMS && s' == s.(ret := s'.ret)
  {
  }

  lemma {:induction false} RunLast(s: State, run: seq<Step>)
    requires ValidRun(s, run) && run != []
    ensures ValidRun(s, run[..|run| - 1]) && Enabled(Final(s, run[..|run| - 1]), run[|run| - 1])
    ensures Final(s, run) == Apply(Final(s, run[..|run| - 1]), run[|run| - 1])
  {
    hide Apply, Enabled;
    RunSplit(s, run, |run| - 1);
    assert run[|run|..] == [];
  }

  lemma Starts(s: State)
    requires Init(s)
    ensures Inv(s) && Matched(s) && s.pc == Idle
  {
  }

  lemma EntryStep(s: State, t: Step)
    requires Inv(s) && Enabled(s, t) && Apply(s, t).pc != Idle && Apply(s, t).pc != Failing
    ensures |Apply(s, t).returned| == |s.returned| && s.pc != Failing
    ensures if s.pc == Idle then t == Call(Apply(s, t).call, true, true)
            else Apply(s, t).call == s.call
  {
  }

  // Every call under way was entered by a step of the run with both pointers.
  lemma {:induction false} CallWasEntered(s0: State, run: seq<Step>) returns (k: nat)
    requires Init(s0) && ValidRun(s0, run) && Final(s0, run).pc != Idle && Final(s0, run).pc != Failing
    ensures Enters(s0, run, k, |Final(s0, run).returned|, Final(s0, run).call)
    decreases |run|
  {
    hide Apply, Enabled, Init, Inv, Matched;
    assert run != [] && Inv(s0) && Matched(s0) by {
      Starts(s0);
    }
    var n := |run| - 1;
    RunLast(s0, run);
    var s := Final(s0, run[..n]);
    RunInv(s0, run[..n]);
    EntryStep(s, run[n]);
    if s.pc == Idle {
      k := n;
    } else {
      k := CallWasEntered(s0, run[..n]);
      assert run[..n][..k] == run[..k] && run[..n][k] == run[k];
    }
  }
}
