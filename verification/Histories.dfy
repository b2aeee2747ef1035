/** What the mailbox protocols record of their runs, and the history of a single call. */
module Histories {
  import opened MailboxTypes

  // One call of one task. In the thread build it also stands for the address of that call's stack
  // variables.
  datatype CallId = CallId(task: Task, serial: nat)

  datatype Event =
    | Accept(id: CallId, msg: Msg)
    | Pend(id: CallId, slot: SlotIdx, msg: Msg)
    | Take(id: CallId, slot: SlotIdx, msg: Msg)
    | Answer(id: CallId, slot: SlotIdx, value: int)
    | Deliver(id: CallId, value: int)
    | Return(id: CallId, value: int)

  // The events of one call, in order.
  function History(log: seq<Event>, id: CallId): seq<Event> {
    if log == [] then []
    else
      var rest := History(log[..|log| - 1], id);
      if log[|log| - 1].id == id then rest + [log[|log| - 1]] else rest
  }

  lemma HistoryAppend(log: seq<Event>, e: Event)
    ensures forall id: CallId {:trigger History(log + [e], id)} ::
      History(log + [e], id) == if e.id == id then History(log, id) + [e] else History(log, id)
  {
    assert (log + [e])[..|log|] == log;
  }

  lemma {:induction false} InHistory(log: seq<Event>, k: nat)
    requires k < |log|
    ensures log[k] in History(log, log[k].id)
  {
    var before := log[..|log| - 1];
    if k == |log| - 1 {
      var h := History(log, log[k].id);
      assert h[|h| - 1] == log[k];
    } else {
      InHistory(before, k);
      assert before[k] == log[k];
      assert forall e :: e in History(before, log[k].id) ==> e in History(log, log[k].id);
    }
  }
}
