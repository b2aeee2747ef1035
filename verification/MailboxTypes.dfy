/** The data the builds of the non-secure mailbox share: slot numbers, task handles, result codes, messages. */
module MailboxTypes {
  // A slot number.
  type SlotIdx = nat

  // A task handle of the non-secure RTOS.
  type Task = nat

  const SUCCESS: int := 0
  const INT32_MIN: int := -0x8000_0000
  const QUEUE_FULL: int := INT32_MIN + 1
  const INVAL_PARAMS: int := INT32_MIN + 2
  const NO_PEND_EVENT: int := INT32_MIN + 4

  // The message the secure side reads: call type, a copy of the parameter block, client id.
  datatype Msg = Msg(callType: bv32, params: seq<bv32>, clientId: int)

  // i is the lowest-numbered member of S: what the scanning loops of both builds select.
  predicate IsLowest(i: SlotIdx, S: set<SlotIdx>) {
    i in S && forall j | j in S :: i <= j
  }

  // Every non-empty set of slots has a lowest member.
  lemma {:induction false} LowestExists(S: set<SlotIdx>) returns (i: SlotIdx)
    requires S != {}
    ensures IsLowest(i, S)
    decreases |S|
  {
    var k :| k in S;
    if S == {k} {
      i := k;
      assert forall j | j in S :: j == k;
    } else {
      assert |S - {k}| < |S| && S - {k} != {};
      var j := LowestExists(S - {k});
      i := if k <= j then k else j;
      assert forall n | n in S :: n == k || n in S - {k};
    }
  }
}
