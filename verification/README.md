# Verified models of the non-secure mailbox and other core logic of Trusted Firmware-M

The project models the parts of the repository whose correctness spans many functions or many
interleaved steps, and proves what they promise. `dafny verify dfyconfig.toml` checks everything.

## What is modelled

**The non-secure mailbox.** Tasks send PSA client calls to the secure core through N slots that
three status words track. Each of the three builds of the code is a transition system in which every
critical section, and every access to memory that tasks share, is one step, and the steps of all
parties interleave freely:

- `ThreadBuild`: clients queue requests, one mailbox thread claims slots, the interrupt handler
  writes replies and wakes owners. Client code is `ClientCall`, `ClientSend`, `ClientCheck`,
  `ClientWake`
  (tfm_ns_mailbox_thread.c:157-207), the thread is `Thread...` (65-146, 209-235), the handler is
  `Isr...` (237-304).
- `SemaphoreBuild`: each client takes a permit and claims its own slot (tfm_ns_mailbox.c:69-267).
  A flag of the state, `atomicAcquire`, chooses between the code as written, which takes its snapshot
  and its claim in two critical sections, and a variant in which they are one.
- `BareMetalBuild`: one caller, one slot, polling (tfm_ns_mailbox.c:269-283, tfm_ns_mailbox.h:23-25).

The secure side is represented by the contract that the comments on the status words give
(tfm_mailbox.h:122-131): it takes a pending slot once, writes `return_val`, then sets the replied
bit. Blocking calls on semaphores, queues and thread flags are steps that are enabled when the call
can go through; thread flags stay up until they are waited for. Histories (`log`) and the markers
`wild` (a pointer was followed after its call had ended, or while null) and `missed` (a pass of the
handler ended in the window described below) exist only to state properties.

`NsMailboxQueue` and `NsMailboxSemaphore` are the same two builds as the code holds them: 32-bit
status words, an array of slots, loops with their early exits, changed in place. Each method is proved
to perform steps of the transition system, so what is proved of every run holds of them; the methods
without a row below (entering a call, queue and semaphore operations, single reads and writes) are the
steps between. `ThreadBuildCalls` and `SemaphoreCalls` state what a caller sees, from the arguments of
the step that enters the call to the value it returns; `ThreadBuildSleep` and `SemaphoreOwner` who
sleeps until when and who is woken. `StatusWord` relates the words to sets of slots; `Histories`, `Words`, `Powers` and
`Wrappers` hold what several modules share.

Results beside the plain guarantees:

- The mailbox thread can sleep past an empty slot. That happens exactly when a pass of the handler
  ends, with a slot empty, between the thread's failed snapshot and `is_full = true`
  (`SleepsPastEmptySlot`). It is for ever exactly when nothing is under way any more
  (`AbandonedForever`, `CanWakeExactly`), and a run with one slot and two clients reaches that
  (`AbandonedReachable`).
- In the semaphore build exclusive ownership of slots holds in every run if and only if there is one
  slot, fewer than two tasks, or the acquire is one step (`ExclusiveExactlyWhen`). The same condition
  is exact for each pended message being the call's own (`OwnMessageExactlyWhen`) and for the order of
  each call's events (`CanonicalExactlyWhen`). Permits are conserved in every case.

**Fault-injection hardening** (`FihInt`, `FihCfi`), in the medium profile: masked integers on
explicit 32-bit words, and the control-flow counter over arbitrary call trees with nested step blocks
and error resets. `Exec` runs a tree on the masked counter; class `Counter` is the global variable and
its functions. A tree runs without a panic exactly under three measures of it, and leaving one
decrement out is caught exactly when a call encloses it with no error reset in between.

**Allocation of stateless handles** (`ServiceHandles...`). Dictionaries are known by their place in
the collected list, so that aliasing and the equality test of `list.remove` are modelled as they are.
The list is walked by index while it shrinks. Every service lands in the table exactly once if and only
if no visited service comes after an equal one (`EveryServiceOnce`); the results on positions and
numbers are for the lists that meet this condition, which all lists of distinct services do. The documentation and the code differ in three ways:

- a service without the handle key is said to be treated as "auto", and raises an error instead
  (unless the walk skips it);
- an explicit handle is said to be used, but a service that follows a visited one is skipped and
  gets a free one in its turn (`SuccessorSkipped`; `AllVisitedExactly` says when none is skipped,
  `HonouredExactly` when a handle is honoured all the same);
- a handle of zero or below is accepted, and the secure core cannot decode it
  (`SecureCoreFindsEntry`).

**Log printing** (`LogFormat`, `LogRaw`): the 32-byte buffer, the digit arrays and the format loop
against a pure formatter. The answer is documented as the number of characters printed
(interface/include/log/tfm_log_raw.h:21); it adds the last flush a second time, so it is that number
exactly when the text fills the buffer a whole number of times and the driver sent every piece whole
(`CountIsPrintedExactly`).

**Sizes and bit loops** (`DerSizes`, `AeadSizes`, `BitLoops`): claimed sizes of exported keys against
actual DER octets (which `DerReading` reads back), streaming buffer sizes, software bit reversal and leading-zero count. The RSA
macros are bounds for every key size. The DSA macros are two octets short for a q of 256 bits from
2040 bits of p on, because an INTEGER of 256 bits takes 35 octets and not 34, and a BIT STRING 5 and
not 4 of overhead; `DsaPublicKeyFits` and `DsaKeyPairFits` say exactly when they are bounds.

## Model

| member | source | states |
|---|---|---|
| ThreadBuildCalls.SuccessReturnsOwnAnswer | interface/src/multi_core/tfm_ns_mailbox_thread.c:175-207 | In every run, a call that a step entered with call type, parameters and client id m and that returns success hands back the value the secure side produced when it took m for this very call; its history is accept, pend, take, answer, deliver, return, each once |
| ThreadBuildCalls.CallCarriesItsArguments | interface/src/multi_core/tfm_ns_mailbox_thread.c:102-146 | Every accept, pend and take of a call, in every later state, carries exactly the arguments of the step that entered the call |
| ThreadBuildCalls.CallWasEntered | interface/src/multi_core/tfm_ns_mailbox_thread.c:188-197 | Every call under way was entered by a step of the run that had both pointers |
| ThreadBuildCalls.IncompleteCallRefused | interface/src/multi_core/tfm_ns_mailbox_thread.c:188-190 | A call without parameters or reply pointer gets MAILBOX_INVAL_PARAMS at once and leaves queue, slots, reply and records as they were |
| ThreadBuildTheorems.FlaggedCallReturns | interface/src/multi_core/tfm_ns_mailbox_thread.c:157-207 | A flagged call that leaves its waiting loop returns success and the delivered value, and its history is complete |
| ThreadBuildTheorems.HistoriesAreCanonical | interface/src/multi_core/tfm_ns_mailbox_thread.c:102-304 | No request is ever pended, taken, answered, delivered or returned twice, out of order, or with another message, slot or value; finished calls have all six events |
| ThreadBuildTheorems.PhasesPartitionSlots | interface/src/multi_core/tfm_ns_mailbox_thread.c:53-146 | In every reachable state each slot is in exactly one phase and the three status words are pairwise disjoint and name only the N slots |
| ThreadBuildTheorems.NoStalePointerFollowed | interface/src/multi_core/tfm_ns_mailbox_thread.c:118-173 | params_ptr, reply and woken_flag are followed only while the client is still inside the call they were taken in, and never while null |
| ThreadBuildTheorems.NoLostWakeUp | interface/src/multi_core/tfm_ns_mailbox_thread.c:157-173 | A client asleep with its thread flag down is about to be woken if its reply is signalled; if not, its request is in the queue, in the thread's hands or in a slot |
| ThreadBuildTheorems.PlacesAreExclusive | interface/src/multi_core/tfm_ns_mailbox_thread.c:102-146 | A request in a slot is in no other slot, not in the queue and not in the thread's hands |
| ThreadBuildTheorems.PendedInOrder | interface/src/multi_core/tfm_ns_mailbox_thread.c:209-235 | Requests are pended in the order they were accepted, and those not yet pended are exactly the queue and the one in hand |
| ThreadBuildTheorems.PassReleasesSnapshot | interface/src/multi_core/tfm_ns_mailbox_thread.c:247-291 | When a pass of the handler releases slots, complete_slots is its whole snapshot, nothing remains, and exactly these slots become empty |
| ThreadBuildTheorems.ThreadNeverStuck | interface/src/multi_core/tfm_ns_mailbox_thread.c:89-139 | Past its snapshot the mailbox thread can always take its next step; a claim finds its slot |
| ThreadBuildTheorems.HandlerNeverStuck | interface/src/multi_core/tfm_ns_mailbox_thread.c:256-289 | The handler can always take its next step, and a pending slot can always be taken |
| ThreadBuildTheorems.StepOrder | interface/src/multi_core/tfm_ns_mailbox_thread.c:199-233 | Every step keeps the order of acceptance in queue, hand and slots |
| ThreadBuildTheorems.StepLosesNothing | interface/src/multi_core/tfm_ns_mailbox_thread.c:102-304 | No step loses an outstanding request |
| ThreadBuildInv.StepInv | interface/src/multi_core/tfm_ns_mailbox_thread.c:65-304 | Every step of clients, thread, secure side and handler keeps the whole invariant of the protocol |
| ThreadBuildInv.InitInv | interface/src/multi_core/tfm_ns_mailbox_thread.c:330-338 | The state after initialisation meets the invariant, for any number of slots and clients |
| ThreadBuildInv.SlotRequestIsUnique | interface/src/multi_core/tfm_ns_mailbox_thread.c:124-128 | Two slots in flight never belong to the same request |
| ThreadBuildWindow.SleepsPastEmptySlot | interface/src/multi_core/tfm_ns_mailbox_thread.c:70-87 | The mailbox thread sleeps although a slot is empty if and only if a pass of the handler ended, with some slot empty, between the thread's snapshot and is_full = true |
| ThreadBuildWindow.AbandonedForever | interface/src/multi_core/tfm_ns_mailbox_thread.c:84-86 | From a state with the thread asleep and nothing under way, no run wakes it or answers any outstanding call, unless some other source raises its flag |
| ThreadBuildWindow.CanWakeExactly | interface/src/multi_core/tfm_ns_mailbox_thread.c:84-86 | A sleeping thread can still be woken from inside the mailbox if and only if some slot is pending, with the secure side or replied, or a pass of the handler is running |
| ThreadBuildWindow.AbandonedReachable | interface/src/multi_core/tfm_ns_mailbox_thread.c:70-87 | With one slot and two clients a run reaches such a state with the slot empty and a call outstanding |
| ThreadBuildSleep.SleepsUntilFlagged | interface/src/multi_core/tfm_ns_mailbox_thread.c:157-173 | A client or the mailbox thread whose flag is down, once asleep, stays asleep through any run in which nobody raises its flag |
| ThreadBuildSleep.OneWakePerFlag | interface/src/multi_core/tfm_ns_mailbox_rtos_api.c:42-50 | Waking up uses the flag up: between two wake-ups of the same sleeper somebody raised its flag again |
| ThreadBuildSleep.QueueBounded | interface/src/multi_core/tfm_ns_mailbox_thread.c:306-316 | The message queue never holds more requests than there are slots, and is_full is set exactly while the thread sleeps for a slot or has not yet cleared it |
| NsMailboxQueue.Queue.constructor | interface/src/multi_core/tfm_ns_mailbox_thread.c:330-338 | Initialisation sets exactly the low N bits of empty_slots, for N from 1 to 32, and represents an initial state of the protocol |
| NsMailboxQueue.Queue.SnapshotEmpty | interface/src/multi_core/tfm_ns_mailbox_thread.c:71-77 | The first critical section and its test: the snapshot is the empty set, and the thread goes on to claim exactly when it is not empty |
| NsMailboxQueue.Queue.ClaimSlot | interface/src/multi_core/tfm_ns_mailbox_thread.c:89-99 | The scan ends at the lowest slot of the snapshot and the second critical section takes exactly that slot, whatever has happened to the queue since |
| NsMailboxQueue.Queue.ClearSlotEmpty | interface/include/multi_core/tfm_ns_mailbox.h:360-366 | Clearing the bit of a slot takes exactly that slot from the empty set |
| NsMailboxQueue.Queue.FillMsg | interface/src/multi_core/tfm_ns_mailbox_thread.c:118-122 | The slot gets the request's call type and client id and the parameters from the client's memory, nothing else of any slot changes, and this is the protocol's step |
| NsMailboxQueue.Queue.FillReply | interface/src/multi_core/tfm_ns_mailbox_thread.c:124-128 | The slot gets the owner and the two addresses of the request, nothing else of any slot changes, and this is the protocol's step |
| NsMailboxQueue.Queue.SetPend | interface/include/multi_core/tfm_ns_mailbox.h:368-374 | Setting the pend bit adds exactly that slot to the pending set |
| NsMailboxQueue.Queue.SetReplyIsr | interface/src/multi_core/tfm_ns_mailbox_thread.c:148-155 | The return value is written through the slot's reply address when it is not null, no other client memory changes, and this is the protocol's step |
| NsMailboxQueue.Queue.SetSlotWoken | interface/src/multi_core/tfm_ns_mailbox_thread.c:58-63 | The woken flag at the slot's address is raised, no other client memory changes, and this is the protocol's step |
| NsMailboxQueue.Queue.WakeOwner | interface/src/multi_core/tfm_ns_mailbox_thread.c:278-281 | The owner's thread flag is raised when the slot names an owner, and no other client changes |
| NsMailboxQueue.Queue.DeliverSnapshot | interface/src/multi_core/tfm_ns_mailbox_thread.c:256-289 | The loop with its early exit delivers every slot of the snapshot once, in ascending order, and ends with complete_slots equal to the snapshot |
| NsMailboxQueue.Queue.SetQueueSlotAllEmpty | interface/src/multi_core/tfm_ns_mailbox_thread.c:53-56 | Setting the completed bits makes exactly those slots empty |
| NsMailboxQueue.Queue.WakeThreadIfFull | interface/src/multi_core/tfm_ns_mailbox_thread.c:297-301 | The thread's flag is raised exactly when is_full is set |
| NsMailboxQueue.Queue.WakeReplyOwnerIsr | interface/src/multi_core/tfm_ns_mailbox_thread.c:237-304 | A pass is a run of the protocol, releases exactly the slots replied at its start, and says NO_PEND_EVENT exactly when there were none |
| SemaphorePermits.PermitsConserved | interface/src/multi_core/tfm_ns_mailbox_rtos_api.c:94-115 | In every run, split acquire included, permits and holders add up to N, every taken slot has a holder, and no call ends with MAILBOX_QUEUE_FULL from the acquire |
| SemaphorePermits.PermitFindsSlot | interface/src/multi_core/tfm_ns_mailbox.c:69-94 | A task that holds a permit and no slot always finds an empty bit |
| SemaphorePermits.StepPermit | interface/src/multi_core/tfm_ns_mailbox.c:69-206 | Every step keeps the permit invariant |
| SemaphoreOwnership.StepOwn | interface/src/multi_core/tfm_ns_mailbox.c:69-311 | Every step keeps exclusive ownership and all that rests on it, when the acquire is one step, there is one slot, or there are fewer than two tasks |
| SemaphoreOwnership.AloneFromPermits | interface/src/multi_core/tfm_ns_mailbox.c:165-206 | With one slot the permit alone keeps all but one task out |
| SemaphoreCalls.SuccessReturnsOwnAnswer | interface/src/multi_core/tfm_ns_mailbox.c:146-206 | With a one-step acquire, one slot, or fewer than two tasks: a call that a step entered with m returns success and the value the secure side produced when it took m for this very call |
| SemaphoreCalls.CallCarriesItsArguments | interface/src/multi_core/tfm_ns_mailbox.c:103-144 | Under the same condition every pend and take of a call carries exactly the arguments of the step that entered it |
| SemaphoreCalls.CallWasEntered | interface/src/multi_core/tfm_ns_mailbox.c:165-187 | Every call under way was entered by a step of the run that had both pointers |
| SemaphoreCalls.IncompleteCallRefused | interface/src/multi_core/tfm_ns_mailbox.c:178-180 | A call without parameters or reply pointer gets MAILBOX_INVAL_PARAMS at once, takes no permit and leaves everything else as it was |
| SemaphoreTheorems.LeavingCallReturns | interface/src/multi_core/tfm_ns_mailbox.c:146-206 | Under the same condition a call at its end returns success and the value answered to the message it was filled with |
| SemaphoreTheorems.HistoriesAreCanonical | interface/src/multi_core/tfm_ns_mailbox.c:103-163 | Under the same condition no call is pended, taken, answered or returned twice or with another message, slot or value |
| SemaphoreTheorems.NoLostWakeUp | interface/src/multi_core/tfm_ns_mailbox.c:209-311 | Under the same condition a task asleep with its flag down has its request in exactly one place, or is about to be woken |
| SemaphoreOwner.WakesItsWorker | interface/src/multi_core/tfm_ns_mailbox.c:130-151 | In every run, with a race or without, the owner a slot names is a task inside a call that works on this very slot, so the handler wakes nobody else |
| SemaphoreOwner.EmptySlotHasNoOwner | interface/src/multi_core/tfm_ns_mailbox.c:146-160 | Without a race a slot that is empty names no owner |
| SemaphoreOwner.SleepsUntilFlagged | interface/src/multi_core/tfm_ns_mailbox.c:286-311 | A task whose thread flag is down, once asleep, stays asleep through any run in which nobody raises its flag |
| SemaphoreOwner.OneWakePerFlag | interface/src/multi_core/tfm_ns_mailbox_rtos_api.c:42-50 | Between two wake-ups of the same task somebody raised its flag again |
| SemaphoreTheorems.ExclusiveExactlyWhen | interface/src/multi_core/tfm_ns_mailbox.c:69-94 | Two tasks never own one slot in any run if and only if N is one, there are fewer than two tasks, or snapshot and claim are one step |
| SemaphoreTheorems.OwnMessageExactlyWhen | interface/src/multi_core/tfm_ns_mailbox.c:121-137 | Every message pended for a call under way is the call's own, in every run, if and only if the same condition holds |
| SemaphoreTheorems.CanonicalExactlyWhen | interface/src/multi_core/tfm_ns_mailbox.c:103-163 | Every call's history is in order, in every run, if and only if the same condition holds |
| SemaphoreTheorems.BothClaim | interface/src/multi_core/tfm_ns_mailbox.c:74-91 | Otherwise a run lets two tasks claim the same slot |
| SemaphoreTheorems.ForeignMessagePended | interface/src/multi_core/tfm_ns_mailbox.c:121-137 | Otherwise a run pends one task's call with another task's message |
| NsMailboxSemaphore.Queue.constructor | interface/src/multi_core/tfm_ns_mailbox.c:326-334 | Initialisation represents an initial state of the protocol, with N permits |
| NsMailboxSemaphore.Queue.SnapshotEmpty | interface/src/multi_core/tfm_ns_mailbox.c:74-81 | The snapshot is the empty set; the task goes on to claim from it when it is not empty and leaves with MAILBOX_QUEUE_FULL when it is |
| NsMailboxSemaphore.Queue.ClaimSlot | interface/src/multi_core/tfm_ns_mailbox.c:83-93 | The scan finds the lowest slot of the snapshot and the claim is the protocol's step, even if the slot was taken since |
| NsMailboxSemaphore.Queue.FillMsg | interface/src/multi_core/tfm_ns_mailbox.c:121-126 | The slot gets the caller's message, nothing else of any slot changes, and this is the protocol's step |
| NsMailboxSemaphore.Queue.SetMsgOwner | interface/src/multi_core/tfm_ns_mailbox.c:96-133 | The slot names the caller as its owner, nothing else of any slot changes, and this is the protocol's step |
| NsMailboxSemaphore.Queue.SetQueueSlotPend | interface/src/multi_core/tfm_ns_mailbox.c:135-137 | Exactly this slot joins the pending set, as one step |
| NsMailboxSemaphore.Queue.FreeSlot | interface/src/multi_core/tfm_ns_mailbox.c:153-160 | Clearing the woken flag and setting the empty bit are one step, and the buffered value goes to the caller |
| NsMailboxSemaphore.Queue.DeliverSnapshot | interface/src/multi_core/tfm_ns_mailbox.c:227-248 | The loop with its early exit flags exactly the slots of the snapshot and changes nothing else of any slot |
| NsMailboxSemaphore.Queue.WakeReplyOwnerIsr | interface/src/multi_core/tfm_ns_mailbox.c:209-251 | A pass is a run of the protocol that flags exactly the slots replied at its start and says NO_PEND_EVENT exactly when there were none |
| BareMetalBuild.EachCallItsAnswer | interface/src/multi_core/tfm_ns_mailbox.c:268-284 | Without an operating system, in every run each call's message is taken once and unchanged, each call returns the answer to its own message, and no call finds the slot taken |
| BareMetalBuild.PollEnds | interface/src/multi_core/tfm_ns_mailbox.c:286-311 | While the caller polls, either the secure side can move or the next poll ends the wait |
| BareMetalBuild.SuccessReturnsOwnAnswer | interface/src/multi_core/tfm_ns_mailbox.c:165-206 | A call that a step entered with m has m taken by the secure side, and ends with MAILBOX_SUCCESS and the answer to m handed to its caller |
| BareMetalBuild.CallWasEntered | interface/src/multi_core/tfm_ns_mailbox.c:165-187 | Every call under way was entered by a step of the run that had both pointers |
| BareMetalBuild.IncompleteCallRefused | interface/src/multi_core/tfm_ns_mailbox.c:178-180 | A call without parameters or reply pointer gets MAILBOX_INVAL_PARAMS and changes nothing else |
| StatusWord.InitWordMembers | interface/src/multi_core/tfm_ns_mailbox.c:328-332 | The sum of the two shifts is the word with exactly the low N bits set, for N from 1 to 32 |
| StatusWord.WordOps | interface/include/multi_core/tfm_ns_mailbox.h:359-381 | Clearing and setting bits of a status word are set difference and union |
| StatusWord.ZeroMembers | interface/src/multi_core/tfm_ns_mailbox.c:78-81 | A status word is zero exactly when it names no slot |
| StatusWord.LowestBit | interface/src/multi_core/tfm_ns_mailbox.c:83-87 | The scan of a status word ends at its lowest bit |
| FihInt.DecodeEncode | lib/fih/inc/fih.h:207-220 | Decoding an encoded integer gives it back, for every int32_t |
| FihInt.ValidIsEncoded | lib/fih/inc/fih.h:198-205 | A pair passes validation exactly when it is the encoding of its value |
| FihInt.CopyIsMasked | lib/fih/inc/fih.h:215-221 | Bit by bit, the second word of an encoded value is the first with the bits of 0xA5C35A3C turned over |
| FihInt.EqualWordsInvalid | lib/fih/inc/fih.h:199-205 | No pair of two equal words passes validation |
| FihInt.ComparisonsExact | lib/fih/inc/fih.h:222-278 | On valid pairs fih_eq and fih_not_eq never panic, are complements and agree with integer equality |
| FihInt.OneWordChanged | lib/fih/inc/fih.h:198-278 | A pair with exactly one word changed panics on decode and in every comparison, on either side |
| FihCfi.IncrementExact | lib/fih/src/fih.c:20-39 | For every counter and count the increment panics or stores the exact integer sum, under 32-bit wrap-around |
| FihCfi.DecrementExact | lib/fih/src/fih.c:51-60 | The decrement panics exactly below one and otherwise takes one off |
| FihCfi.ValidateExact | lib/fih/src/fih.c:41-49 | The check after a call panics exactly when the counter is not the saved one |
| FihCfi.TamperedCounterStops | lib/fih/src/fih.c:24-26 | No counter action runs on a counter whose two words disagree |
| FihCfi.RunsCleanExactly | lib/fih/inc/fih.h:383-428 | A call tree runs without a panic exactly when every callee gives back the one count its call took, no decrement underflows and the running sum stays below 2^31; the counter then moves by the tree's net change |
| FihCfi.FittingRun | lib/fih/inc/fih.h:463-484 | Within the range, a tree with an unbalanced callee always ends in the check after a call |
| FihCfi.DisciplinedTreeIsClean | lib/fih/inc/fih.h:392-484 | A tree in which each callee runs FIH_RET once and each step block is used up or reset never panics and restores the counter, if and only if the running sum stays below 2^31 |
| FihCfi.DisciplineCloses | lib/fih/inc/fih.h:383-428 | Disciplined bodies stay disciplined one after the other, as a callee with its FIH_RET, inside a step block with its decrements, and inside a block that an error reset cuts short anywhere |
| FihCfi.GivesBack | lib/fih/inc/fih.h:403-428 | A call, and a step block ended by an error reset, leave the counter as it was or stop the run |
| FihCfi.OmittedDecrementStops | lib/fih/inc/fih.h:383-390 | One FIH_RET or step decrement left out, with an enclosing call and no error reset between, always ends in a panic |
| FihCfi.OmittedDecrementExactly | lib/fih/inc/fih.h:403-428 | It is the check after a call that stops the run, and exactly then; otherwise the counter ends one too high or, under an error reset, unchanged |
| FihCfi.EnclosingCheckFires | lib/fih/inc/fih.h:463-473 | The check that fires is the one of the nearest enclosing call: the callee still runs to its end |
| FihCfi.ReplacedCallee | lib/fih/inc/fih.h:373-382 | A callee that never ran, or any other actions in its place with another net change, is caught by its caller |
| FihCfi.Counter.constructor | lib/fih/src/fih.c:18-18 | The counter starts as the encoding of zero |
| FihCfi.Counter.Increment | lib/fih/src/fih.c:20-39 | The function on the global counter is the specified increment; its two last validations never fail |
| FihCfi.Counter.Check | lib/fih/src/fih.c:41-49 | The function on the global counter is the specified check and changes nothing |
| FihCfi.Counter.Decr | lib/fih/src/fih.c:51-60 | The function on the global counter is the specified decrement; its last validation never fails |
| FihCfi.Counter.Execute | lib/fih/inc/fih.h:383-428 | Running a tree on the global counter is the specified run |
| ServiceHandles.CollectServices | tools/tfm_parse_manifest_list.py:190-202 | The two nested loops collect what the specification collects, or stop at the missing key |
| ServiceHandlesTheorems.CollectedExactly | tools/tfm_parse_manifest_list.py:190-202 | Collecting fails exactly when an eligible partition lists a service without the key, and collects exactly the services that say they are not connection based |
| ServiceHandlesTheorems.CollectedInOrder | tools/tfm_parse_manifest_list.py:190-202 | Each service that says it is not connection based, in an IPC partition of framework version 1.1 or later, is collected exactly once, in the order of partitions and of services within them, and nothing else is |
| ServiceHandles.PlaceExplicit | tools/tfm_parse_manifest_list.py:217-230 | The first loop, by index over the list it shrinks, computes the specified walk for every input, equal dictionaries included |
| ServiceHandles.FillAndEncode | tools/tfm_parse_manifest_list.py:232-250 | The second loop computes the specified filling and encodes the dictionaries in place |
| ServiceHandles.AllocateHandles | tools/tfm_parse_manifest_list.py:204-252 | The function computes the specified table and updates the dictionaries in place, for every input |
| ServiceHandlesTheorems.WalkVisits | tools/tfm_parse_manifest_list.py:219-230 | The walk that removes as it goes places exactly the visited services, in order, for every list, whichever entries its removals hit |
| ServiceHandlesTheorems.LeftWhenFirst | tools/tfm_parse_manifest_list.py:229-230 | If every visited service is the first of its kind, the removals take exactly the visited ones and leave the others in order |
| ServiceHandlesTheorems.LeastIsGone | tools/tfm_parse_manifest_list.py:229-230 | If a visited service has an equal before it, the least equal is removed in its place and is gone from the list |
| ServiceHandlesTheorems.AllVisitedExactly | tools/tfm_parse_manifest_list.py:219-230 | Every explicit service is visited if and only if no two of them are adjacent |
| ServiceHandlesTheorems.VisitedAndLeft | tools/tfm_parse_manifest_list.py:219-230 | Visited and left services together are the list |
| ServiceHandlesTheorems.EncodedFields | tools/tfm_parse_manifest_list.py:238-250 | For a handle below 256 the number is bit 30, the low byte of the version and the handle side by side |
| ServiceHandlesTheorems.EncodedNegative | tools/tfm_parse_manifest_list.py:245-250 | A negative handle swallows indicator and version |
| ServiceHandlesTheorems.EncodedDecodes | secure_fw/spm/cmsis_psa/spm_ipc.h:41-61 | The secure core's macros read back index and version, and accept exactly the handles from 1 to 32 |
| ServiceHandlesTable.PlacesExactly | tools/tfm_parse_manifest_list.py:223-228 | The walk raises no error exactly when the visited handles are numbers that name distinct positions of the table |
| ServiceHandlesTable.SmallestFreeInOrder | tools/tfm_parse_manifest_list.py:232-237 | The services left get the free positions, the smallest first, in the order of the list |
| ServiceHandlesTable.FillWorks | tools/tfm_parse_manifest_list.py:232-250 | The second loop never fails on distinct services and encodes every entry once |
| ServiceHandlesResults.SucceedsExactly | tools/tfm_parse_manifest_list.py:204-252 | If every visited service is the first of its kind, the allocation succeeds if and only if the services fit the table and the visited handles name distinct positions of it |
| ServiceHandlesResults.WalkFails | tools/tfm_parse_manifest_list.py:219-228 | When the walk raises an error, the first service that cannot be placed is the one whose handle key is missing, is no number, names no position, or names one already taken, and the error says which |
| ServiceHandlesResults.ErrorsExactly | tools/tfm_parse_manifest_list.py:204-252 | Too many services are refused first, an empty list gives an empty table, then the error is the one of the walk; only a list with a visited service behind an equal one can fail later |
| ServiceHandlesResults.NonPositiveFromEnd | tools/tfm_parse_manifest_list.py:223-229 | A used handle of zero or below counts positions from the end of the table |
| ServiceHandlesResults.EveryServiceOnce | tools/tfm_parse_manifest_list.py:207-252 | Whenever the allocation succeeds, every collected service stands in the table exactly once if and only if no visited service comes after an equal one |
| ServiceHandlesResults.WhoGoesWhere | tools/tfm_parse_manifest_list.py:219-237 | Visited services get the position their handle names; the m-th service left gets the m-th position that no visited service names |
| ServiceHandlesResults.HandlesGiven | tools/tfm_parse_manifest_list.py:238-250 | Each entry carries the number packed from its own handle or its position, and nothing else in its dictionary changes |
| ServiceHandlesResults.SecureCoreFindsEntry | tools/tfm_parse_manifest_list.py:238-250 | The secure core decodes an entry to its position and version if and only if the entry had no explicit handle of zero or below that was used |
| ServiceHandlesResults.NumbersDiffer | tools/tfm_parse_manifest_list.py:232-250 | No two entries carry the same number |
| ServiceHandlesResults.ExplicitHonoured | tools/tfm_parse_manifest_list.py:182-183 | If no two explicit services are adjacent, each with a handle of one or more gets exactly that position |
| ServiceHandlesResults.SuccessorSkipped | tools/tfm_parse_manifest_list.py:229-237 | The service after a visited one, explicit or not, is skipped and gets the free position of its turn among the services left |
| ServiceHandlesResults.HonouredExactly | tools/tfm_parse_manifest_list.py:219-237 | An explicit handle of one or more is honoured if and only if its service is visited or its turn among those left comes at that very position |
| ServiceHandlesResults.EqualServicesLoseOne | tools/tfm_parse_manifest_list.py:229-230 | A list of four in which one of two equal dictionaries stands in the table twice and the other not at all |
| LogFormat.NumeralParses | interface/src/log/tfm_log_raw.c:65-73 | Decimal and hexadecimal output reads back as the number |
| LogFormat.NumeralShape | interface/src/log/tfm_log_raw.c:85-93 | Numbers are printed as digits of their base, with no leading zero |
| LogFormat.SignedNumeralParses | interface/src/log/tfm_log_raw.c:59-63 | Every int32_t, the least one included, reads back from its signed output |
| LogFormat.FormatConcat | interface/src/log/tfm_log_raw.c:105-151 | Formatting goes piece by piece: the second of two format strings continues with the arguments the first left |
| LogFormat.PlainText | interface/src/log/tfm_log_raw.c:147-150 | Text without a tag prints as it is |
| LogFormat.UnsignedTag | interface/src/log/tfm_log_raw.c:113-116 | %u prints the word in decimal digits that read back to it |
| LogFormat.SignedTag | interface/src/log/tfm_log_raw.c:108-112 | %d and %i print the two's complement value in decimal digits, a minus sign in front exactly when it is negative |
| LogFormat.HexTag | interface/src/log/tfm_log_raw.c:117-124 | %x prints lower-case and %X upper-case hexadecimal digits that read back to the word |
| LogFormat.PointerTag | interface/src/log/tfm_log_raw.c:125-129 | %p prints 0x and lower-case hexadecimal digits that read back to the word |
| LogFormat.TextTags | interface/src/log/tfm_log_raw.c:130-141 | %s prints the string, %c the low byte of the word, %% a percent sign |
| LogFormat.UnknownTag | interface/src/log/tfm_log_raw.c:142-145 | A tag not known prints the notice and then stands as ordinary text; a lone % at the end prints the notice alone |
| LogFormat.CompleteConcat | interface/src/log/tfm_log_raw.c:105-151 | Two format strings that end in no lone % make one that does not either |
| LogRaw.FormattedBuffer.PutChar | interface/src/log/tfm_log_raw.c:27-36 | One more character follows all that was put before; the buffer is flushed when full and never overrun |
| LogRaw.FormattedBuffer.Output | platform/ext/common/uart_stdout.c:36-51 | The piece handed to the driver is the front of the buffer; the answer is what the driver reports as sent, at most its length, and zero if it refuses |
| LogRaw.FormattedBuffer.StringOutput | interface/src/log/tfm_log_raw.c:38-49 | Prints the string and answers its length |
| LogRaw.FillDigits | interface/src/log/tfm_log_raw.c:65-68 | The digit loop stays within the twelve places and leaves the number's digits, lowest first |
| LogRaw.FormattedBuffer.DrainDigits | interface/src/log/tfm_log_raw.c:70-73 | The second loop prints the digits from the top |
| LogRaw.FormattedBuffer.DecNumOutput | interface/src/log/tfm_log_raw.c:51-76 | Prints the signed or unsigned decimal numeral of any word and answers its length |
| LogRaw.FormattedBuffer.HexNumOutput | interface/src/log/tfm_log_raw.c:78-96 | Prints the hexadecimal numeral of any word and answers its length |
| LogRaw.FormattedBuffer.Conversion | interface/src/log/tfm_log_raw.c:107-137 | Each case of the switch prints what its conversion stands for |
| LogRaw.FormattedBuffer.Piece | interface/src/log/tfm_log_raw.c:105-151 | One turn of the loop prints the front piece of what is left of the format and moves past it and its argument |
| LogRaw.FormattedBuffer.Finish | interface/src/log/tfm_log_raw.c:153-156 | The last flush hands over what waits in the buffer, so the pieces make up all that was put |
| LogRaw.Vprintf | interface/src/log/tfm_log_raw.c:98-159 | For every format string and matching arguments the flushed pieces make up the formatted text, all but a partial last one are 32 characters, and the answer is the length of the text plus what the last flush reports |
| LogRaw.CountIsPrintedExactly | interface/src/log/tfm_log_raw.c:153-158 | The answer is the number of characters printed exactly when the driver sent every piece whole and the length is a multiple of 32 |
| DerSizes.ContentIsDer | interface/include/psa/crypto_sizes.h:428-437 | The INTEGER octets read back as the number, are not negative and are as few as possible |
| DerSizes.LengthIsDer | interface/include/psa/crypto_sizes.h:431-435 | The length octets count themselves, read back as the length and are as few as possible |
| DerSizes.IntegerBoundExactly | interface/include/psa/crypto_sizes.h:428-439 | The INTEGER macro bounds the encoding of a number if and only if it has at most 2^19 - 9 bits |
| DerSizes.RsaPublicKeyFits | interface/include/psa/crypto_sizes.h:441-453 | The RSA public key macro bounds RSAPublicKey for every key size up to PSA_MAX_KEY_BITS |
| DerSizes.RsaPublicKeyTight | interface/include/psa/crypto_sizes.h:441-453 | The RSA public key macro is reached by every modulus of 2040 bits or more with an exponent of 32 bits |
| DerReading.RsaPublicKeyReads | interface/include/psa/crypto_sizes.h:441-453 | The modelled RSAPublicKey reads back as a SEQUENCE of the modulus and the public exponent |
| DerSizes.RsaPrimeBits | interface/include/psa/crypto_sizes.h:455-457 | Primes that differ by at most one bit have at most half the key bits, plus one |
| DerSizes.RsaKeyPairFits | interface/include/psa/crypto_sizes.h:455-478 | The RSA key pair macro bounds RSAPrivateKey for every key size up to PSA_MAX_KEY_BITS under its stated assumptions |
| DerSizes.RsaKeyPairSlack | interface/include/psa/crypto_sizes.h:455-478 | For full-length members and the usual key sizes the RSA key pair macro allows exactly ten octets more than the encoding has |
| DerReading.RsaKeyPairReads | interface/include/psa/crypto_sizes.h:459-471 | The modelled RSAPrivateKey reads back as the version and the eight numbers in their order |
| DerSizes.DsaPublicKeyFits | interface/include/psa/crypto_sizes.h:480-497 | The DSA public key macro is a bound below 2040 bits of p or for q of at most 247 bits, and for keys with full-size members only then |
| DerSizes.DsaKeyPairFits | interface/include/psa/crypto_sizes.h:499-516 | The DSA key pair macro is a bound below 2040 bits of p or for q of at most 255 bits, and for keys with full-size members only then |
| DerReading.DsaPublicKeyReads | interface/include/psa/crypto_sizes.h:480-490 | The modelled SubjectPublicKeyInfo reads back as the DSA identifier with p, q, g and a BIT STRING that holds y |
| DerReading.DsaKeyPairReads | interface/include/psa/crypto_sizes.h:499-508 | The modelled DSAPrivateKey reads back as the version, p, q, g, y and x |
| DerSizes.DsaMacrosTooSmall | interface/include/psa/crypto_sizes.h:480-516 | Key members of 2048 and 256 bits whose encodings take 844 and 860 octets, two more than the macros say |
| AeadSizes.ShortenedTag | interface/include/psa/crypto_values.h:1065-1068 | Shortening the tag sets the tag length and leaves the classification |
| AeadSizes.FieldsRead | interface/include/psa/crypto_values.h:662-663 | The classification, the tag length and the encrypt size read exactly their fields of the identifier, whatever the other bits are |
| AeadSizes.KnownAlgorithms | interface/include/psa/crypto_values.h:1002-1044 | CCM and GCM are AEAD on a block cipher, ChaCha20-Poly1305 is AEAD and not on one, all with tags of 16 bytes; CBC and HMAC are not AEAD |
| AeadSizes.DecryptUndoesEncrypt | interface/include/psa/crypto_sizes.h:200-227 | The decrypt size undoes the encrypt size exactly when the tag length is not zero, empty messages aside |
| AeadSizes.UpdateFits | interface/include/psa/crypto_sizes.h:247-255 | One update of an implementation that holds back until it has a whole block fits the update macro |
| AeadSizes.UpdateTight | interface/include/psa/crypto_sizes.h:247-255 | For every input length some amount held back makes the output exactly as long as the update macro says |
| AeadSizes.FinishNotTight | interface/include/psa/crypto_sizes.h:275-278 | The finish macro is never reached: the last output is always shorter than a whole block |
| AeadSizes.FinishReached | interface/include/psa/crypto_sizes.h:275-278 | Fifteen bytes bring the last output to one byte below the finish macro for modes on a block cipher, and to exactly it for the others |
| AeadSizes.StreamFits | interface/include/psa/crypto_sizes.h:247-278 | For every sequence of fragments no update and no finish exceeds its macro, and as many bytes come out as went in |
| BitLoops.RBIT | platform/ext/cmsis/cmsis_iccarm.h:539-550 | The loop that stops early computes the full reversal of every word, its shift count never below zero |
| BitLoops.CLZ | platform/ext/cmsis/cmsis_iccarm.h:524-537 | The loop counts the leading zeros, 32 exactly for zero |
| BitLoops.ReversedBit | platform/ext/cmsis/cmsis_iccarm.h:539-550 | Bit i of the reversal is bit 31 - i of the word |
| BitLoops.ReversedTwice | platform/ext/cmsis/cmsis_iccarm.h:539-550 | Reversal is its own inverse |
| BitLoops.LeadingOfReversed | platform/ext/cmsis/cmsis_iccarm.h:524-550 | The leading zeros of the reversal are the trailing zeros of the word |
| BitLoops.LeadingMeaning | platform/ext/cmsis/cmsis_iccarm.h:524-537 | The count of leading zeros places the word between two powers of two |
| BitLoops.TrailingMeaning | platform/ext/cmsis/cmsis_iccarm.h:524-550 | The count of trailing zeros is the exponent of the largest power of two that divides the word, 32 for zero |

## Left out

- The secure side of the mailbox and the platform's hardware layer: represented by the contract above.
- Memory barriers, caches and word tearing: steps are sequentially consistent.
- Errors of the operating system (semaphore release, queue creation, handle lookup) and calls before initialisation: each returns at once. `mq_send` and `mq_receive` retry until they succeed, so they are steps that wait.
- The null checks of the thread runner on a received request: requests built by the client call are never null.
- The bodies of the waiting loops: a loop is the turns its methods take, since other parties run in between; how often a turn is taken is not bounded.
- `is_full` is declared only in the statistics build although the mailbox-thread build uses it; the model always has it.
- The design document calls `pend_slots` the slots not replied yet; in the code the bit means not yet taken by the secure side, and the model follows the code.
- Mailbox statistics.
- Filling a slot's message is one step, as is filling its reply structure; only one party has the slot then.
- ThreadBuildTheorems.ThreadNeverStuck: says nothing of the thread while it sleeps, because the code does not guarantee that it is woken.
- FihInt.Eq: the random delays between the two comparisons are not modelled; they change no value.
- The low and high profiles of the library, the panic loop and the random source: a panic is the end of the run.
- FihCfi.ExecCmd: the validation of the callee's returned value at the end of FIH_CALL is not part of the counter's run.
- ServiceHandles.AllocateHandles: handles of other types than numbers and strings, and services that are one dictionary object listed twice, are not modelled.
- The rest of the manifest tool: files, templates, arguments.
- LogRaw.Vprintf: the count does not wrap at 2^31, and a null string pointer is the caller's error as in C.
- AeadSizes.DecryptSize: is an integer below zero where size_t would wrap, for a ciphertext shorter than its tag.
- Elliptic curve and symmetric sizes, and `__SSAT` and `__USAT`: one line each.
- The crypto, storage, attestation, firmware update and platform interfaces, isolation hardware and assembly stubs: they marshal arguments or drive hardware.
