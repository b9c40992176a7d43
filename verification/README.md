# oneshot: a verified model of the channel protocol

A oneshot channel is one heap cell shared by a `Sender` and a `Receiver` (or, after
`into_future`, an `AsyncReceiver`). The cell holds a one-byte atomic state, a message slot and a
waker slot, both uninitialised at first. The two sides coordinate through the byte alone, and
which of them disposes of the message, of a waker and of the allocation depends on how their
steps interleave. This project models that protocol and proves what it promises over every
interleaving.

## How the model is built

* `States.dfy`, `Memory.dfy`: the five byte codes, `+ 1` and `^ 1` on a real byte, and a view
  machine for one atomic byte. It follows sections 6.9.2.1 [intro.races] and 31.11
  [atomics.fences] of the C++20 standard: loads may return stale entries of the modification
  order, read-modify-writes read the last entry and continue its release sequence, plain stores
  break it, acquire fences upgrade earlier relaxed loads.
* `Protocol.dfy`: a transition system. Every atomic operation, slot access, park, unpark and
  deallocation is one step of one side, with the memory ordering the code writes. Nothing is
  assumed to go well: a use after free, a double free, an access to an uninitialised slot, an
  overwritten slot, a slot access not ordered after the other side's, a store not forced to be
  last, and every `unreachable!()` arm record a fault and the run goes on. A ledger keeps the
  message's fates, every waker instance, wakes, park tokens, frees and results.
* `Invariant.dfy`, `LedgerInvariant.dfy`, `Wakeups.dfy`, `History.dfy`, `Reachable.dfy`: the inductive
  invariant. `Control` says what the byte, the slots and the two program counters mean together
  (who may touch which slot, whether it is initialised, who must free); `Knows` says what each
  side is sure to have seen.
* `Safety.dfy`, `AsyncDrop.dfy`, `FreeOrder.dfy`, `Traces.dfy`, `Deadline.dfy`, `Renewal.dfy`,
  `Progress.dfy`, `AtomicChannel.dfy`, `Refinement.dfy`, `Arithmetics.dfy`, `Equivalence.dfy`:
  the theorems.
* `Effects.dfy`, `Endpoints.dfy`: what one step does to what the code can see, and the code of
  both endpoints as methods of a `Channel` object, with its matches and its park and spin loops.
  Between any two operations the other side makes any number of its own steps. Every operation
  is tied to a step of the transition system, so that an object that is `Valid()` is always at
  the end of some run from `channel()`, and the theorems apply to it. `Previous()` is the system
  just before the operation's own step. `tally` and `acts` count what each side has done along
  that run: the receiver's calls in order, the wakers it wrote and for whom, the returns of park
  and the spurious ones among them, and each deadline's swap with its verdict; and the sender's
  steps in order. The contracts say what exactly each method adds to them, so that a method that
  made another call, wrote another waker, gave up early or slept for less would not meet its own.
  The clock of a timed receive is a parameter: how often it is read with time left.

`State` is the whole system; a run is a sequence of labels that is enabled step by step from
`Init`. `After(how, Init, run)` is its last state, `how` being the arithmetic of the sender's
first update. The results of `Renewal`, `Equivalence` and `Endpoints` and the concrete runs of
`FreeOrder` and `AsyncDrop` are about `Fast`, the arithmetic the code uses; those of the other
modules hold for both arithmetics, and `Arithmetics.FastIsBranch` says that the two have the same
runs. Unless a row says otherwise a result holds for stale loads and for every run in which no
swap of `Drop for AsyncReceiver` returned UNPARKING (`!broken`). Runs of a plain `Receiver`
satisfy that by `Safety.SyncNoFault`; the runs of `Refinement.RefinesAtomicChannel` and of
`Endpoints` read the newest byte at every load.

## Two places where the code does not do what its comments say

* `Drop for AsyncReceiver`, UNPARKING arm (src/receiver.rs:850, src/receiver.rs:874-899). The
  swap has already replaced UNPARKING by DISCONNECTED, so the loop that is to wait for the
  sender can end on the receiver's own write and free the channel under the sender.
  `AsyncDrop.DropMeetsUnparking` is a run that comes to this swap with UNPARKING, and
  `AsyncDrop.DropOvertakes` goes on to the sender's access after the free.
  `Safety.DropSafeExactly`: from the swap on, every continuation is free of faults if and only
  if the byte swapped out is not UNPARKING. Later in the arm, `AsyncDrop.SpinFindsMessage` and
  `AsyncDrop.SpinQuitsExactly` say for each byte that ends the loop when all is still well.
* `wait_for_unpark`, MESSAGE arm (src/receiver.rs:373-380). It takes the message through relaxed
  accesses only. If park returned spuriously and the `Receiver` is then dropped, the drop's
  dealloc is not ordered after the sender's last accesses, as src/lib.rs:200-207 asks.
  `FreeOrder.UnorderedFree` exhibits such a run, `FreeOrder.LaxExactly` and
  `Safety.ReleasedOnce` prove that a free is unordered exactly if that arm was taken without an
  unpark and the free is the one in the receiver's drop. A later consuming `recv` is ordered, by
  its fence. Accesses to the two slots are ordered in every case.

## Model

| member | source | states |
|---|---|---|
| Safety.NoFault | src/receiver.rs:102-902 | no reachable interleaving, with stale loads, has a use after free, double free, uninitialised or overwritten slot, unordered slot access, misplaced store or `unreachable!()` arm |
| Safety.SyncNoFault | src/receiver.rs:102-592 | runs of a `Receiver` never turned into a future meet this without any hypothesis: its drop and its receives never see a forbidden byte |
| Safety.DropSafeExactly | src/receiver.rs:826-902 | in any run, when the async drop reaches its swap: all continuations are fault free iff the byte it replaces is not UNPARKING |
| Safety.OvertakeFrees | src/receiver.rs:874-899 | from any state after a swap over UNPARKING the drop can free the channel before the sender's next access to it |
| AsyncDrop.DropMeetsUnparking | src/receiver.rs:835-850 | a run from `channel()`, unbroken so far, that comes to the drop's swap with UNPARKING as the byte to be replaced |
| AsyncDrop.DropOvertakes | src/receiver.rs:850-899 | a run from `channel()` in which the drop frees the channel and the sender then accesses it |
| AsyncDrop.SpinFindsMessage | src/receiver.rs:880-899 | in any run, if the spin load reads MESSAGE, all that follows is fault free, and the drop ends with the message dropped once and the channel freed once, after all the sender did to it |
| AsyncDrop.SpinQuitsExactly | src/receiver.rs:886-899 | in any run, if the spin load reads DISCONNECTED, all continuations are fault free iff the sender has made its final swap |
| AsyncDrop.SpinMissesMessage | src/receiver.rs:886-899 | if it has, a message that was sent is never disposed of, neither received nor dropped |
| Safety.MessageConserved | src/sender.rs:92-152 | at every point a message given to send is in the slot or has met exactly one of four fates; in a completed run it has met one, and send said Ok iff that fate was the receiver's |
| Safety.WakersConserved | src/channel.rs:196-234 | each waker instance ever written is in the slot, with the sender, dropped in place once or consumed by unpark once; none is left in a completed run |
| Safety.ReleasedOnce | src/lib.rs:209-212 | at most one free, exactly one in a completed run, by the receiver iff the sender left it the channel; exact condition under which the free is ordered after the other side's accesses |
| FreeOrder.LaxExactly | src/receiver.rs:373-380 | the exact guard of the unordered case: MESSAGE read in wait_for_unpark without having consumed the unpark |
| FreeOrder.UnorderedFree | src/receiver.rs:365-390 | a concrete run, fault free and returning the message, whose free is not ordered |
| Invariant.TidySender | src/sender.rs:77-155 | sender steps keep all views within the modification order and within what has happened |
| Invariant.TidyReceiver | src/receiver.rs:102-902 | receiver steps do |
| Reachable.ControlSender | src/sender.rs:104-154 | every sender step keeps the meaning of byte, slots, program counters and lifetime |
| Reachable.ControlLoad | src/receiver.rs:684-782 | every later load and failing compare_exchange of the receiver does, stale or not |
| Reachable.ControlSwap | src/receiver.rs:538-577 | every swap and successful compare_exchange does |
| Reachable.ControlTail | src/receiver.rs:228-262 | so does the straight-line rest of every call |
| Reachable.ControlRest | src/channel.rs:241-286 | and every first load, waker write, waker replacement, self-wake and return of park |
| Reachable.KnowsSender | src/sender.rs:92-133 | sender steps keep what each side has synchronised with, which makes slot accesses and frees ordered |
| Reachable.KnowsLoad | src/receiver.rs:190-200 | receiver loads do, with the orderings written in the code |
| Reachable.KnowsSwap | src/receiver.rs:418-457 | its swaps do |
| Reachable.KnowsTail | src/receiver.rs:108-123 | its stores, fences, slot accesses and frees do |
| Reachable.KnowsRest | src/receiver.rs:365-390 | and its other steps, park and unpark edge included |
| LedgerInvariant.MessageSender | src/errors.rs:41-77 | sender and `SendError` steps keep the message in exactly one place |
| LedgerInvariant.MessageReceiver | src/receiver.rs:803-812 | receiver steps do |
| LedgerInvariant.WakersSender | src/sender.rs:122-141 | sender steps keep every waker instance in exactly one place |
| LedgerInvariant.WakersReceiver | src/receiver.rs:702-708 | receiver steps do |
| LedgerInvariant.ResultsReceiver | src/channel.rs:156-171 | what a receive hands out, or is about to, is the message sent, and it is handed out if taken |
| Reachable.WakeupsOfSender | src/sender.rs:237-249 | sender steps keep whom the waker wakes, where the token is and what a pending poll may rely on |
| Reachable.WakeupsReceiver | src/receiver.rs:686-735 | receiver steps do |
| History.HistoryReceiver | src/receiver.rs:464-498 | every receiver step keeps the result log in its automaton and the receiver where the log allows |
| Reachable.ClosedSender | src/sender.rs:157-170 | what `Sender::is_closed` has told its caller still holds after each sender step |
| Reachable.GoodStep | src/receiver.rs:102-902 | one step of either side keeps the whole invariant |
| Reachable.GoodRun | src/receiver.rs:102-902 | the invariant holds along every run |
| Traces.ResultTrace | src/receiver.rs:306-462 | results are inconclusive ones, then at most one message, then only disconnection; `is_closed` true stays true and fails later receives; after `has_message` true the next receive, poll or timed receive returns the message; a message handed out is the one sent |
| Traces.LegalIsShaped | src/receiver.rs:464-498 | a log accepted by the automaton has that shape, position by position |
| Traces.SenderClosedStays | src/sender.rs:157-170 | `Sender::is_closed` true stays true and no later send succeeds, with relaxed stale loads |
| Traces.PollIsWoken | src/receiver.rs:675-735 | if the last poll was left pending and the sender has finished, that very poll's waker was woken after the poll began |
| Deadline.DecidedSwap | src/receiver.rs:416-457 | the swap(EMPTY) fixes the result; the call goes on waiting iff the sender is between UNPARKING and its final state |
| Deadline.DeadlineExactly | src/receiver.rs:362-462 | once the deadline has passed the call returns Timeout iff the sender had not begun its update at the swap, else the message if there is one, else Disconnected |
| Renewal.RenewedStep | src/receiver.rs:508-592 | a used channel and a fresh one in corresponding states make corresponding steps |
| Renewal.GoodAsNew | src/receiver.rs:416-426 | after any run whose last call returned Timeout or Empty no waker is stored and the channel is bisimilar to a fresh one on which at most the sender has moved |
| Progress.NoLostWakeup | src/receiver.rs:188-223 | a receiver parked without a token has a sender that still owes its thread an unpark |
| Progress.SenderNotStuck | src/sender.rs:114-141 | the sender always has a step until it is done |
| Progress.ReceiverNotStuck | src/receiver.rs:308-330 | once the sender has finished a call always has a productive step, park included |
| Progress.RankDecreases | src/receiver.rs:368-389 | productive steps lower the rank, spurious wakeups and stale loads raise it by at most one |
| Progress.CallsEnd | src/receiver.rs:188-223 | once the sender has finished a call takes at most `Rank` steps plus two for each spurious wakeup or stale load |
| Refinement.RefinesStep | src/sender.rs:104-152 | every step that reads the newest byte is one event of the atomic channel or none |
| Refinement.RefinesAtomicChannel | src/receiver.rs:102-785 | every sequentially consistent run is a run of an atomic one-message channel with the same results on both sides |
| Arithmetics.NeverRead | src/errors.rs:26-77 | once the sender side owns the channel no step reads the byte left by DISCONNECTED + 1 or ^ 1 |
| Arithmetics.FastIsBranch | src/states.rs:8-28 | fetch_add(1) and fetch_xor(1) have the same runs as compare-and-branch, with the same ledger and, until the sender side owns the channel, the same state |
| Equivalence.RecvByRecvRef | src/receiver.rs:145-296 | from any reachable idle `Receiver`, every finished recv is matched by a recv_ref and a drop and no other call: same results, disposal of message and wakers, sender outcome, one free each; recv's free is ordered, the drop's is unless the unordered case above came before |
| Equivalence.RecvRefByRecv | src/receiver.rs:306-332 | and every recv_ref followed by a drop is matched by a recv, with the same comparison |
| Endpoints.TrailIsRun | src/lib.rs:169-181 | the states and steps a `Channel` object goes through are a sequentially consistent run from `channel()` |
| Endpoints.Channel.constructor | src/lib.rs:169-181 | a new channel is EMPTY with both slots uninitialised |
| Endpoints.Channel.LoadState | src/receiver.rs:196-196 | a load in a waiting loop returns the final state once the sender has left |
| Endpoints.Channel.SwapState | src/receiver.rs:186-186 | returns the byte it replaces, leaves the new one, and control follows the match on the old one |
| Endpoints.Channel.CompareExchange | src/channel.rs:253-256 | leaves the new byte iff the byte was the expected one, else leaves it alone; after poll's announcement the poll's waker is stored and every earlier one disposed of |
| Endpoints.Channel.WriteWaker | src/channel.rs:196-199 | finds the waker slot empty and fills it with a new waker for the calling thread or task |
| Endpoints.Channel.DropWaker | src/channel.rs:230-234 | at its own step the slot was initialised; it is empty after, and that waker counted as dropped |
| Endpoints.Channel.TakeMessageOut | src/channel.rs:156-171 | at its own step the slot held the message it hands out; it is empty after |
| Endpoints.Channel.DropMessage | src/channel.rs:178-184 | at its own step the slot was initialised; it is empty after |
| Endpoints.Channel.Deallocate | src/lib.rs:209-212 | at its own step the channel was still allocated; the sender has left it |
| Endpoints.Channel.TryRecv | src/receiver.rs:102-129 | exactly one try_recv, which writes no waker and does not park; Empty iff the sender had not begun its update, a message iff it had left one, Disconnected iff it had left none, in the state the call loaded from; a message is the one sent |
| Endpoints.Channel.Park | src/receiver.rs:189-189 | park returns once, by the token or out of the budget of spurious wakeups, because the sender still owes an unpark |
| Endpoints.Channel.RecvLoop | src/receiver.rs:188-223 | the park loop ends and frees the channel; all but the last return of park were spurious |
| Endpoints.Channel.RecvUndo | src/receiver.rs:224-263 | a registration that came too late is undone, message or disconnection returned, channel freed |
| Endpoints.Channel.Recv | src/receiver.rs:145-296 | exactly one recv by thread `t`, writing at most one waker, that of `t`; ends with the message or Disconnected, the channel freed |
| Endpoints.Channel.StartRecvRef | src/receiver.rs:508-592 | exactly one call begun, which registered its own thread's waker and parks, or returned at once |
| Endpoints.Channel.RefLoop | src/receiver.rs:306-332 | the park loop ends with the message or Disconnected; all but the last return of park were spurious |
| Endpoints.Channel.RecvRef | src/receiver.rs:306-332 | exactly one recv_ref by thread `t`, writing at most one waker, that of `t`; ends with the message or Disconnected, the receiver still usable |
| Endpoints.Channel.WaitForUnpark | src/receiver.rs:368-389 | waits out the sender and returns the message if one was sent, else Disconnected, never Timeout |
| Endpoints.Channel.GiveUp | src/receiver.rs:416-457 | one swap(EMPTY), whose verdict in the state it was made from is what the call returns; Timeout leaves no waker |
| Endpoints.Channel.DeadlineLoop | src/receiver.rs:391-461 | either park has returned exactly `passes` times when the swap is made, and the result is the verdict there, or park returned at most so often, no swap was made and the result is not Timeout |
| Endpoints.Channel.RecvDeadline | src/receiver.rs:362-462 | exactly one recv_deadline by thread `t`, with at most the waker of `t` written, timed as above; Timeout leaves no waker |
| Endpoints.Channel.RecvTimeout | src/receiver.rs:346-351 | a representable deadline makes exactly one recv_deadline, timed as above; another makes exactly one recv_ref and never times out |
| Endpoints.Channel.IntoFuture | src/receiver.rs:655-669 | hands the receiver over without a call |
| Endpoints.Channel.WriteAsyncWaker | src/channel.rs:241-286 | Pending with this poll's waker stored, RECEIVING announced and every earlier waker disposed of; or no waker left and the final state reported |
| Endpoints.Channel.PollAgain | src/receiver.rs:692-735 | Pending with the waker replaced as above or with the task just woken by itself; or no waker left and the final state reported |
| Endpoints.Channel.PollSpin | src/receiver.rs:757-782 | the spin loop ends with the message or Disconnected, with no call and no waker besides |
| Endpoints.Channel.Poll | src/receiver.rs:675-785 | exactly one poll by `task`, with at most the waker of `task` written; message, Disconnected or Pending; Pending leaves this poll's waker woken already or where the sender has still to wake it |
| Endpoints.Channel.IsClosed | src/receiver.rs:469-481 | exactly one such call; true iff the sender has left and no message is there any more |
| Endpoints.Channel.HasMessage | src/receiver.rs:487-498 | exactly one such call; true iff the sender has left and its message is there |
| Endpoints.Channel.WhatIdleSees | src/states.rs:6-28 | between calls MESSAGE means left with a message, DISCONNECTED left without one, EMPTY a sender before its update and no waker stored |
| Endpoints.Channel.DropReceiver | src/receiver.rs:789-821 | exactly the drop; leaves no waker, frees the channel iff the sender has left it, drops an unreceived message |
| Endpoints.Channel.DropAsyncReceiver | src/receiver.rs:826-873 | exactly the drop; `clean` and the same as above, or the swap was made over UNPARKING, and the object is in the state right after it |
| Endpoints.Channel.FetchUpdate | src/sender.rs:104-104 | the sender's first update replaces `was` by `was + 1` or `was ^ 1` and never meets a forbidden byte |
| Endpoints.Channel.Unparks | src/sender.rs:114-141 | the waker that was stored at the start is consumed and woken once, after the final state was the newest byte |
| Endpoints.Channel.Send | src/sender.rs:77-155 | exactly the write and the fetch_add, then the taking of the waker, the final swap and the unpark iff RECEIVING was replaced; Ok iff the receiver side now owns the message, else a `SendError` owns the channel |
| Endpoints.Channel.DropSender | src/sender.rs:199-264 | exactly the fetch_xor and what its result asks for; leaves the channel to the receiver or frees it |
| Endpoints.Channel.SenderIsClosed | src/sender.rs:157-170 | exactly one load; true iff the receiver is gone, on a load of the newest byte |
| Endpoints.Channel.FreeChannel | src/lib.rs:209-212 | the sender side's free: at its own step the channel was still allocated |
| Endpoints.Channel.AsInner | src/errors.rs:63-67 | shows the message that was sent |
| Endpoints.Channel.IntoInner | src/errors.rs:41-59 | returns the message that was sent and frees the channel |
| Endpoints.Channel.DropSendError | src/errors.rs:71-77 | drops the message that was sent and frees the channel |

## Left out

- The UNPARKING arm of `Drop for AsyncReceiver` as a path with guarantees: it is a step of the transition system with its exact consequences, but the `Channel` object stops after its swap.
- Real time: `Instant` and `Duration` become a free choice of the moment in the transition system, a number of readings with time left in `Endpoints`, and `checked_add` overflow a parameter.
- The internals of `std::thread` park and unpark, executors and waker vtables: a token, spurious wakeups and counts of wakes and drops remain.
- Load buffering: views only grow, so a load never returns a write that is later in program time.
- `into_raw`, `from_raw`, `Send`, `Sync` and `Unpin` impls, variance and pointer sizes: they have no step semantics.
- Panics and unwinding out of user `Drop`, waker clone or waker wake code, and the delays built in for tests.
- `Display`, `Debug` and `Error` impls, and the shims in src/atomic.rs, src/thread.rs and src/loombox.rs.
- Renewal.GoodAsNew: compares results, message, sender, stored waker and wakes; waker drop counts are covered by `Safety.WakersConserved` instead.
- Refinement.RefinesAtomicChannel: is about runs whose loads read the newest byte; under stale loads a receive may miss a message already sent, and `Traces.ResultTrace` says what still holds.
- Endpoints.Channel.IsClosed: loads read the newest byte in the `Channel` object; stale loads are covered by the transition system.
- Endpoints.Channel.Park: takes the number of spurious wakeups to come as a finite budget, which is what its termination needs; the transition system has no such bound.
- Endpoints.Channel.PollSpin: its termination takes it that a sender which is unparking makes a step at each spin hint; `Progress.CallsEnd` needs no such assumption once the sender has finished.
- Several threads in `Sender::is_closed`: a `Sender` can be shared, so several threads may load the byte through it at once; the model gives the sender side one thread and one view.
- Endpoints.Channel.DropAsyncReceiver: stops right after a swap that returned UNPARKING; what the rest of that arm does is in `Safety` and `AsyncDrop`.
