/**
 The inductive invariant of the protocol. `Control` says what the state byte, the slots and
 the two program counters mean together; the other parts follow the clocks, the message,
 the wakers and the call history.
 */
module Invariant {
  import opened States
  import opened Memory
  import opened Protocol

  // -------------------------------------------------------------- clocks and views

  /** No view points past the end of the modification order or knows of steps that have
      not happened. */
  predicate Bounded(st: State, v: View, pos: nat) {
    v.s <= st.sv.cur.s && v.r <= st.rv.cur.r && v.pos <= pos
  }

  predicate Tidy(st: State) {
    st.c.hist != [] && st.rv.cur.pos < |st.c.hist| && st.sv.cur.pos < |st.c.hist| &&
    st.rv.cur.s <= st.sv.cur.s && st.sv.cur.r <= st.rv.cur.r &&
    Bounded(st, st.rv.acq, st.rv.cur.pos) && Bounded(st, st.sv.acq, st.sv.cur.pos) &&
    (forall i :: 0 <= i < |st.c.hist| ==> Bounded(st, st.c.hist[i].rel, i)) &&
    (forall t :: t in st.g.tokens ==> Bounded(st, st.g.tokens[t], |st.c.hist| - 1)) &&
    st.c.msgAcc.s <= st.c.cellAcc.s <= st.sv.cur.s && st.c.wakAcc.s <= st.sv.cur.s &&
    st.c.msgAcc.r <= st.rv.cur.r && st.c.wakAcc.r <= st.rv.cur.r && st.c.cellAcc.r <= st.rv.cur.r
  }

  // ------------------------------------------------------------ where the sender is

  /** The sender has not updated the state yet. */
  predicate Before(st: State) {
    st.s.SAlive? || st.s.SPublish?
  }

  /** The sender saw RECEIVING and has not written its final state. */
  predicate Waking(st: State) {
    st.s.STakeWaker? || st.s.SFinalSwap?
  }

  /** The sender wrote its final state and left the channel to the receiver. */
  predicate Left(st: State) {
    st.s.SUnpark? || st.s.SFinished?
  }

  /** The receiver was gone first; the sender side owns the channel. */
  predicate Owns(st: State) {
    st.s.SError? || st.s.SErrorFree? || st.s.SDropFree? || st.s.SReleased?
  }

  /** The sender left without ever seeing a waker. */
  predicate Quiet(st: State) {
    st.s.SFinished? && !st.s.woke
  }

  predicate Sending(s: SPc) {
    match s
    case SAlive => false
    case SPublish => true
    case STakeWaker(b) => b
    case SFinalSwap(b, _) => b
    case SUnpark(b, _) => b
    case SFinished(b, _) => b
    case SError => true
    case SErrorFree => true
    case SDropFree => false
    case SReleased(b) => b
    case SPanic => false
  }

  function Byte0(st: State): Byte
    requires st.c.hist != []
  {
    Last(st.c.hist)
  }

  /** The entries the receiver may still read, other than the last one, hold `a` or `b`. */
  predicate Stale(st: State, a: Byte, b: Byte) {
    forall i :: st.rv.cur.pos <= i < |st.c.hist| - 1 ==> st.c.hist[i].val == a || st.c.hist[i].val == b
  }

  predicate UpToDate(st: State) {
    st.rv.cur.pos == |st.c.hist| - 1
  }

  /** The sender's final state is the last entry and the receiver has not acted on it. */
  predicate Ready(st: State)
    requires st.c.hist != []
  {
    Left(st) && Byte0(st) == (if Sending(st.s) then MESSAGE else DISCONNECTED) &&
    st.c.msg == (if Sending(st.s) then st.g.sent else None)
  }

  /** EMPTY as in "open", or the sender came and went without a waker; no waker stored. */
  predicate Calm(st: State)
    requires st.c.hist != []
  {
    st.c.waker.None? &&
    ((Before(st) && Byte0(st) == EMPTY) || (Ready(st) && Quiet(st) && Stale(st, EMPTY, EMPTY)))
  }

  /** The same with a waker stored that the sender has not seen and will not see. */
  predicate Loaded(st: State)
    requires st.c.hist != []
  {
    st.c.waker.Some? &&
    ((Before(st) && Byte0(st) == EMPTY) || (Ready(st) && Quiet(st) && Stale(st, EMPTY, EMPTY)))
  }

  /** The receiver announced RECEIVING with a waker; the sender may have answered. */
  predicate Armed(st: State)
    requires st.c.hist != []
  {
    (Before(st) && Byte0(st) == RECEIVING && st.c.waker.Some?) || Answered(st)
  }

  predicate Answered(st: State)
    requires st.c.hist != []
  {
    (Waking(st) && Byte0(st) == UNPARKING && Stale(st, RECEIVING, RECEIVING)) ||
    (Ready(st) && !Quiet(st) && st.c.waker.None? && Stale(st, RECEIVING, UNPARKING) &&
     forall i :: st.rv.cur.pos <= i < |st.c.hist| - 2 ==> st.c.hist[i].val == RECEIVING)
  }

  /** A poll has seen UNPARKING. */
  predicate Spinning(st: State)
    requires st.c.hist != []
  {
    (Waking(st) && Byte0(st) == UNPARKING && UpToDate(st)) ||
    (Ready(st) && !Quiet(st) && st.c.waker.None? && Stale(st, UNPARKING, UNPARKING))
  }

  /** A deadline overwrote UNPARKING by EMPTY; the sender's final state is still to come. */
  predicate Overrun(st: State)
    requires st.c.hist != []
  {
    (Waking(st) && Byte0(st) == EMPTY && UpToDate(st)) ||
    (Ready(st) && !Quiet(st) && st.c.waker.None? && Stale(st, EMPTY, EMPTY))
  }

  /** The receiver has acted on the sender's final state and keeps DISCONNECTED. */
  predicate Settled(st: State)
    requires st.c.hist != []
  {
    Left(st) && Byte0(st) == DISCONNECTED && UpToDate(st) && st.c.msg.None? && st.c.waker.None?
  }

  /** Inside a call that has acted on the sender's final state: what is left to do says
      exactly what is still in the slots and who frees. */
  predicate Claimed(st: State, op: Op, t: Todo)
    requires st.c.hist != []
  {
    Left(st) && UpToDate(st) && !Finished(t) && !op.IsClosed? && !op.HasMessage? &&
    (t.dropWaker <==> st.c.waker.Some?) && (t.dropWaker ==> Quiet(st)) &&
    (t.take || t.dropMsg <==> st.c.msg.Some?) &&
    (st.c.msg.Some? ==> Sending(st.s) && st.c.msg == st.g.sent) &&
    (t.take ==> !op.Drop?) && (t.dropMsg ==> op.Drop?) &&
    (t.free <==> Consuming(op)) &&
    (!t.store && !Consuming(op) ==> Byte0(st) == DISCONNECTED) &&
    (t.take || op.Drop? <==> t.out.None?) &&
    (t.out.Some? ==> t.out.value.Disconnected? || t.out.value.Got?)
  }

  const TimedOut := Nothing.(dropWaker := true, out := Some(Timeout))

  predicate ReceiverAt(st: State)
    requires st.c.hist != []
  {
    match st.r
    case RIdle(async) => Calm(st) || Settled(st) || (async && Armed(st))
    case RWrite(op) => Calm(st) && (Blocking(op) || op.Poll?)
    case RArm(op) => Loaded(st) && (Blocking(op) || op.Poll?)
    case RPark(op) => Armed(st) && Blocking(op)
    case RCheck(op) => Armed(st) && Blocking(op)
    case RWaitPark(op, _) => Overrun(st) && op.RecvDeadline?
    case RWaitCheck(op, _) => Overrun(st) && op.RecvDeadline?
    case RReplace(op) => Armed(st) && op.Poll?
    case RReplaceDrop(op) => Loaded(st) && op.Poll?
    case RSelfWake(op) => Answered(st) && op.Poll?
    case RSpin(op) => Spinning(st) && op.Poll?
    case RDropCas => Armed(st)
    case RDropOld => Loaded(st)
    case RDropSwap =>
      Calm(st) || Settled(st) || (Waking(st) && Byte0(st) == UNPARKING) ||
      (Ready(st) && st.c.waker.None?)
    case RTail(op, t) => (t == TimedOut && op.RecvDeadline? && Loaded(st)) || Claimed(st, op, t)
    case RDone =>
      (Before(st) && Byte0(st) == DISCONNECTED && st.c.waker.None?) ||
      (Left(st) && st.c.waker.None? && st.c.msg.None?) || (Owns(st) && st.c.waker.None?)
    case RDropSpin => false
    case RDropSpinMsg => false
    case RPanic => false
  }

  predicate SenderAt(st: State)
    requires st.c.hist != []
  {
    (st.g.sent.Some? <==> Sending(st.s)) &&
    (Before(st) ==> st.c.msg == st.g.sent && UpToDate(st)) &&
    (Waking(st) ==> st.c.msg == st.g.sent && (st.s.STakeWaker? <==> st.c.waker.Some?)) &&
    (st.s.SError? ==> st.c.msg == st.g.sent) &&
    (Owns(st) ==> st.r.RDone? && (!st.s.SError? ==> st.c.msg.None?)) &&
    !st.s.SPanic?
  }

  predicate Lifetime(st: State) {
    (st.c.live <==> !(Left(st) && st.r.RDone?) && !st.s.SReleased?) &&
    |st.g.frees| == (if st.c.live then 0 else 1) &&
    (forall i :: 0 <= i < |st.g.frees| ==> st.g.frees[i].party == (if Left(st) then ReceiverSide else SenderSide))
  }

  predicate Control(st: State) {
    st.c.hist != [] && ReceiverAt(st) && SenderAt(st) && Lifetime(st) && !st.g.broken
  }

  /** What the sender must know to touch the slots or free. */
  predicate SenderKnows(st: State)
    requires st.c.hist != []
  {
    var rel := st.c.hist[|st.c.hist| - 1].rel;
    (Before(st) || Owns(st) ==> st.c.msgAcc.r == 0) &&
    (Before(st) && Byte0(st) == RECEIVING ==> st.c.wakAcc.r <= rel.r) &&
    (st.s.STakeWaker? ==> st.c.wakAcc.r <= st.sv.cur.r) &&
    (Before(st) && st.r.RDone? ==> st.c.cellAcc.r <= rel.r) &&
    (Owns(st) ==> st.c.cellAcc.r <= st.sv.cur.r)
  }

  /** What an acquire of the last entry would tell the receiver. */
  predicate Released(st: State)
    requires st.c.hist != []
  {
    st.c.cellAcc.s <= st.c.hist[|st.c.hist| - 1].rel.s
  }

  predicate ReceiverKnows(st: State)
    requires st.c.hist != []
  {
    var rel := st.c.hist[|st.c.hist| - 1].rel;
    (Before(st) || st.s.STakeWaker? || Quiet(st) ==> st.c.wakAcc.s == 0) &&
    (st.g.lax ==> Sending(st.s)) &&
    (Waking(st) && Byte0(st) == UNPARKING ==> st.c.msgAcc.s <= rel.s) &&
    (Left(st) && UnactedOn(st) ==> Released(st) || (UpToDate(st) && st.c.cellAcc.s <= st.rv.cur.s)) &&
    (forall t :: t in st.g.tokens ==> st.s.SFinished? && st.c.cellAcc.s <= st.g.tokens[t].s) &&
    match st.r
    case RWaitPark(_, woken) => WaitKnows(st, woken)
    case RWaitCheck(_, woken) => WaitKnows(st, woken)
    case RIdle(_) => SettledKnows(st)
    case RDropSwap => SettledKnows(st)
    case RTail(op, t) => if t == TimedOut then !st.g.lax else TailKnows(st, op, t)
    case _ => !st.g.lax || st.r.RDone?
  }

  /** The receiver is at a point from which it may still read the sender's final state. */
  predicate UnactedOn(st: State)
    requires st.c.hist != []
  {
    !st.r.RDone? && (st.r.RTail? ==> st.r.todo == TimedOut) && Ready(st)
  }

  predicate WaitKnows(st: State, woken: bool) {
    st.c.msgAcc.s <= st.rv.cur.s && !st.g.lax &&
    (Waking(st) ==> !woken) &&
    (Left(st) ==> (woken <==> st.c.cellAcc.s <= st.rv.cur.s))
  }

  predicate SettledKnows(st: State)
    requires st.c.hist != []
  {
    if st.g.lax then
      Settled(st) && !Released(st) && st.rv.cur.s < st.c.cellAcc.s <= st.rv.acq.s
    else
      Settled(st) ==> st.c.cellAcc.s <= st.rv.cur.s || Released(st)
  }

  predicate TailKnows(st: State, op: Op, t: Todo)
    requires st.c.hist != []
  {
    var known := if t.fence then Max(st.rv.cur.s, st.rv.acq.s) else st.rv.cur.s;
    (t.take || t.dropMsg ==> st.c.msgAcc.s <= known) &&
    if st.g.lax then
      (op.RecvDeadline? && !t.fence && st.rv.cur.s < st.c.cellAcc.s <= st.rv.acq.s && (!t.store ==> !Released(st))) ||
      (op.Recv? && st.c.cellAcc.s <= known) ||
      (op.Drop? && st.rv.cur.s < st.c.cellAcc.s && !t.fence)
    else
      st.c.cellAcc.s <= known || (!Consuming(op) && !t.store && Released(st))
  }

  /** A free is ordered after everything the other side did, except that a drop after a
      spuriously woken wait_for_unpark took the message is not. */
  predicate FreesOrdered(st: State) {
    forall i :: 0 <= i < |st.g.frees| ==>
      (st.g.frees[i].ordered <==> !(st.g.lax && st.g.frees[i].party.ReceiverSide? && st.g.frees[i].byDrop))
  }

  predicate Knows(st: State) {
    st.c.hist != [] && SenderKnows(st) && ReceiverKnows(st) && FreesOrdered(st) && st.g.faults == {}
  }

  predicate Safe(st: State) {
    Tidy(st) && Control(st) && Knows(st)
  }

  lemma TidyUpdate(how: Arithmetic, st: State, a: SAct)
    requires Tidy(st) && SEnabled(st, a)
    requires a.FetchAdd? || a.FetchXor? || a.FinalSwap?
    ensures Tidy(SStep(how, st, a))
  {
  }

  lemma TidyQuiet(how: Arithmetic, st: State, a: SAct)
    requires Tidy(st) && SEnabled(st, a)
    requires a.SIsClosed? || a.TakeWaker? || a.Unpark? || a.SFree?
    ensures Tidy(SStep(how, st, a))
  {
  }

  lemma TidyMessage(how: Arithmetic, st: State, a: SAct)
    requires Tidy(st) && SEnabled(st, a)
    requires a.WriteMessage? || a.PeekError? || a.TakeError? || a.DropError?
    ensures Tidy(SStep(how, st, a))
  {
  }

  lemma TidySender(how: Arithmetic, st: State, a: SAct)
    requires Tidy(st) && SEnabled(st, a)
    ensures Tidy(SStep(how, st, a))
  {
    if a.FetchAdd? || a.FetchXor? || a.FinalSwap? {
      TidyUpdate(how, st, a);
    } else if a.SIsClosed? || a.TakeWaker? || a.Unpark? || a.SFree? {
      TidyQuiet(how, st, a);
    } else {
      TidyMessage(how, st, a);
    }
  }

  lemma TidyLoad(st: State, a: RAct)
    requires Tidy(st) && REnabled(st, a) && (a.Begin? || a.LoadAt?)
    ensures Tidy(RStep(st, a))
  {
  }

  lemma TidyWrite(st: State, a: RAct)
    requires Tidy(st) && REnabled(st, a) && (a.Swap? || a.StoreByte?)
    ensures Tidy(RStep(st, a))
  {
  }

  lemma TidyRest(st: State, a: RAct)
    requires Tidy(st) && REnabled(st, a) && !a.Begin? && !a.LoadAt? && !a.Swap? && !a.StoreByte?
    ensures Tidy(RStep(st, a))
  {
  }

  lemma TidyReceiver(st: State, a: RAct)
    requires Tidy(st) && REnabled(st, a)
    ensures Tidy(RStep(st, a))
  {
    if a.Begin? || a.LoadAt? {
      TidyLoad(st, a);
    } else if a.Swap? || a.StoreByte? {
      TidyWrite(st, a);
    } else {
      TidyRest(st, a);
    }
  }

  lemma ControlIsClosed(how: Arithmetic, st: State, i: nat)
    requires Tidy(st) && Control(st) && SEnabled(st, SIsClosed(i))
    ensures Control(SStep(how, st, SIsClosed(i)))
  {
  }

  lemma ControlWriteMessage(how: Arithmetic, st: State, m: Message)
    requires Tidy(st) && Control(st) && SEnabled(st, WriteMessage(m))
    ensures Control(SStep(how, st, WriteMessage(m)))
  {
  }

  lemma ControlAddOpen(how: Arithmetic, st: State)
    requires Tidy(st) && Control(st) && SEnabled(st, FetchAdd)
    requires Last(st.c.hist) == EMPTY
    ensures Control(SStep(how, st, FetchAdd))
  {
  }

  lemma ControlAddReceiving(how: Arithmetic, st: State)
    requires Tidy(st) && Control(st) && SEnabled(st, FetchAdd)
    requires Last(st.c.hist) == RECEIVING
    ensures Control(SStep(how, st, FetchAdd))
  {
  }

  lemma ControlAddClosed(how: Arithmetic, st: State)
    requires Tidy(st) && Control(st) && SEnabled(st, FetchAdd)
    requires Last(st.c.hist) != EMPTY && Last(st.c.hist) != RECEIVING
    ensures Control(SStep(how, st, FetchAdd))
  {
  }

  lemma ControlFetchAdd(how: Arithmetic, st: State)
    requires Tidy(st) && Control(st) && SEnabled(st, FetchAdd)
    ensures Control(SStep(how, st, FetchAdd))
  {
    if Last(st.c.hist) == EMPTY {
      ControlAddOpen(how, st);
    } else if Last(st.c.hist) == RECEIVING {
      ControlAddReceiving(how, st);
    } else {
      ControlAddClosed(how, st);
    }
  }

  lemma ControlXorOpen(how: Arithmetic, st: State)
    requires Tidy(st) && Control(st) && SEnabled(st, FetchXor)
    requires Last(st.c.hist) == EMPTY
    ensures Control(SStep(how, st, FetchXor))
  {
  }

  lemma ControlXorReceiving(how: Arithmetic, st: State)
    requires Tidy(st) && Control(st) && SEnabled(st, FetchXor)
    requires Last(st.c.hist) == RECEIVING
    ensures Control(SStep(how, st, FetchXor))
  {
  }

  lemma ControlXorClosed(how: Arithmetic, st: State)
    requires Tidy(st) && Control(st) && SEnabled(st, FetchXor)
    requires Last(st.c.hist) != EMPTY && Last(st.c.hist) != RECEIVING
    ensures Control(SStep(how, st, FetchXor))
  {
  }

  lemma ControlFetchXor(how: Arithmetic, st: State)
    requires Tidy(st) && Control(st) && SEnabled(st, FetchXor)
    ensures Control(SStep(how, st, FetchXor))
  {
    if Last(st.c.hist) == EMPTY {
      ControlXorOpen(how, st);
    } else if Last(st.c.hist) == RECEIVING {
      ControlXorReceiving(how, st);
    } else {
      ControlXorClosed(how, st);
    }
  }

  lemma ControlTakeWaker(how: Arithmetic, st: State)
    requires Tidy(st) && Control(st) && SEnabled(st, TakeWaker)
    ensures Control(SStep(how, st, TakeWaker))
  {
  }

  lemma ControlFinalSwap(how: Arithmetic, st: State)
    requires Tidy(st) && Control(st) && SEnabled(st, FinalSwap)
    ensures Control(SStep(how, st, FinalSwap))
  {
  }

  lemma ControlUnpark(how: Arithmetic, st: State)
    requires Tidy(st) && Control(st) && SEnabled(st, Unpark)
    ensures Control(SStep(how, st, Unpark))
  {
  }

  lemma ControlError(how: Arithmetic, st: State, a: SAct)
    requires Tidy(st) && Control(st) && SEnabled(st, a) && (st.s.SError? || st.s.SErrorFree? || st.s.SDropFree?)
    ensures Control(SStep(how, st, a))
  {
  }

  lemma ControlLook(st: State, op: Op, i: nat)
    requires Tidy(st) && Control(st) && REnabled(st, Begin(op, i)) && !st.r.async
    requires op.IsClosed? || op.HasMessage?
    ensures Control(RStep(st, Begin(op, i)))
  {
  }

  lemma ControlTry(st: State, op: Op, i: nat)
    requires Tidy(st) && Control(st) && REnabled(st, Begin(op, i)) && !st.r.async
    requires op.TryRecv?
    ensures Control(RStep(st, Begin(op, i)))
  {
  }

  lemma ControlBeginRecv(st: State, op: Op, i: nat)
    requires Tidy(st) && Control(st) && REnabled(st, Begin(op, i)) && !st.r.async
    requires op.Recv? || op.RecvRef? || op.RecvDeadline?
    ensures Control(RStep(st, Begin(op, i)))
  {
  }

  lemma ControlBeginSync(st: State, op: Op, i: nat)
    requires Tidy(st) && Control(st) && REnabled(st, Begin(op, i)) && !st.r.async
    ensures Control(RStep(st, Begin(op, i)))
  {
    if op.IsClosed? || op.HasMessage? {
      ControlLook(st, op, i);
    } else if op.TryRecv? {
      ControlTry(st, op, i);
    } else {
      ControlBeginRecv(st, op, i);
    }
  }

  lemma ControlLookAsync(st: State, op: Op, i: nat)
    requires Tidy(st) && Control(st) && REnabled(st, Begin(op, i)) && st.r.async
    requires op.IsClosed? || op.HasMessage?
    ensures Control(RStep(st, Begin(op, i)))
  {
  }

  lemma ControlBeginPoll(st: State, op: Op, i: nat)
    requires Tidy(st) && Control(st) && REnabled(st, Begin(op, i)) && st.r.async
    requires op.Poll?
    ensures Control(RStep(st, Begin(op, i)))
  {
  }

  lemma ControlBeginDrop(st: State, op: Op, i: nat)
    requires Tidy(st) && Control(st) && REnabled(st, Begin(op, i)) && st.r.async
    requires op.Drop?
    ensures Control(RStep(st, Begin(op, i)))
  {
  }

  lemma ControlBeginAsync(st: State, op: Op, i: nat)
    requires Tidy(st) && Control(st) && REnabled(st, Begin(op, i)) && st.r.async
    ensures Control(RStep(st, Begin(op, i)))
  {
    if op.IsClosed? || op.HasMessage? {
      ControlLookAsync(st, op, i);
    } else if op.Poll? {
      ControlBeginPoll(st, op, i);
    } else {
      ControlBeginDrop(st, op, i);
    }
  }

  lemma ControlIntoFuture(st: State)
    requires Tidy(st) && Control(st) && REnabled(st, IntoFuture)
    ensures Control(RStep(st, IntoFuture))
  {
  }

  lemma ControlLoadCheck(st: State, i: nat)
    requires Tidy(st) && Control(st) && REnabled(st, LoadAt(i)) && (st.r.RCheck? || st.r.RWaitCheck?)
    requires st.r.RCheck?
    ensures Control(RStep(st, LoadAt(i)))
  {
  }

  lemma ControlLoadWait(st: State, i: nat)
    requires Tidy(st) && Control(st) && REnabled(st, LoadAt(i)) && (st.r.RCheck? || st.r.RWaitCheck?)
    requires st.r.RWaitCheck?
    ensures Control(RStep(st, LoadAt(i)))
  {
  }

  lemma ControlLoadParked(st: State, i: nat)
    requires Tidy(st) && Control(st) && REnabled(st, LoadAt(i)) && (st.r.RCheck? || st.r.RWaitCheck?)
    ensures Control(RStep(st, LoadAt(i)))
  {
    if st.r.RCheck? {
      ControlLoadCheck(st, i);
    } else {
      ControlLoadWait(st, i);
    }
  }

  lemma ControlLoadPolled(st: State, i: nat)
    requires Tidy(st) && Control(st) && REnabled(st, LoadAt(i)) && (st.r.RArm? || st.r.RSpin?)
    ensures Control(RStep(st, LoadAt(i)))
  {
  }

  lemma ControlLoadReplace(st: State, i: nat)
    requires Tidy(st) && Control(st) && REnabled(st, LoadAt(i)) && (st.r.RReplace? || st.r.RDropCas?)
    ensures Control(RStep(st, LoadAt(i)))
  {
  }

  lemma ControlSwapArm(st: State)
    requires Tidy(st) && Control(st) && REnabled(st, Swap) && st.r.RArm?
    ensures Control(RStep(st, Swap))
  {
  }

  lemma ControlSwapDeadline(st: State)
    requires Tidy(st) && Control(st) && REnabled(st, Swap) && st.r.RPark?
    ensures Control(RStep(st, Swap))
  {
  }

  lemma ControlSwapReplace(st: State)
    requires Tidy(st) && Control(st) && REnabled(st, Swap) && (st.r.RReplace? || st.r.RDropCas?)
    ensures Control(RStep(st, Swap))
  {
  }

  lemma ControlSwapDropSync(st: State)
    requires Tidy(st) && Control(st) && REnabled(st, Swap) && (st.r.RIdle? || st.r.RDropSwap?) && !RStep(st, Swap).g.broken
    requires st.r.RIdle?
    ensures Control(RStep(st, Swap))
  {
  }

  lemma ControlSwapDropAsync(st: State)
    requires Tidy(st) && Control(st) && REnabled(st, Swap) && (st.r.RIdle? || st.r.RDropSwap?) && !RStep(st, Swap).g.broken
    requires st.r.RDropSwap?
    ensures Control(RStep(st, Swap))
  {
  }

  lemma ControlSwapDrop(st: State)
    requires Tidy(st) && Control(st) && REnabled(st, Swap) && (st.r.RIdle? || st.r.RDropSwap?) && !RStep(st, Swap).g.broken
    ensures Control(RStep(st, Swap))
  {
    if st.r.RIdle? {
      ControlSwapDropSync(st);
    } else {
      ControlSwapDropAsync(st);
    }
  }

  lemma ControlPutWaker(st: State)
    requires Tidy(st) && Control(st) && REnabled(st, PutWaker)
    ensures Control(RStep(st, PutWaker))
  {
  }

  lemma ControlDiscardOld(st: State)
    requires Tidy(st) && Control(st) && REnabled(st, DiscardWaker) && !st.r.RTail?
    ensures Control(RStep(st, DiscardWaker))
  {
  }

  lemma ControlDiscardOwn(st: State)
    requires Tidy(st) && Control(st) && REnabled(st, DiscardWaker) && st.r.RTail? && st.r.todo != TimedOut
    ensures Control(RStep(st, DiscardWaker))
  {
  }

  lemma ControlTimedOut(st: State)
    requires Tidy(st) && Control(st) && REnabled(st, DiscardWaker) && st.r.RTail? && st.r.todo == TimedOut
    ensures Control(RStep(st, DiscardWaker))
  {
  }

  lemma ControlStore(st: State)
    requires Tidy(st) && Control(st) && REnabled(st, StoreByte)
    ensures Control(RStep(st, StoreByte))
  {
  }

  lemma ControlFence(st: State)
    requires Tidy(st) && Control(st) && REnabled(st, Fence)
    ensures Control(RStep(st, Fence))
  {
  }

  lemma ControlTake(st: State)
    requires Tidy(st) && Control(st) && REnabled(st, TakeMessage)
    ensures Control(RStep(st, TakeMessage))
  {
  }

  lemma ControlDiscardMessage(st: State)
    requires Tidy(st) && Control(st) && REnabled(st, DiscardMessage)
    ensures Control(RStep(st, DiscardMessage))
  {
  }

  lemma ControlFree(st: State)
    requires Tidy(st) && Control(st) && REnabled(st, FreeCell)
    ensures Control(RStep(st, FreeCell))
  {
  }

  lemma ControlWakeSelf(st: State)
    requires Tidy(st) && Control(st) && REnabled(st, WakeSelf)
    ensures Control(RStep(st, WakeSelf))
  {
  }

  lemma ControlWake(st: State, spurious: bool)
    requires Tidy(st) && Control(st) && REnabled(st, Wake(spurious))
    ensures Control(RStep(st, Wake(spurious)))
  {
  }

  lemma KnowsIsClosed(how: Arithmetic, st: State, i: nat)
    requires Safe(st) && SEnabled(st, SIsClosed(i))
    ensures Knows(SStep(how, st, SIsClosed(i)))
  {
  }

  lemma KnowsWriteMessage(how: Arithmetic, st: State, m: Message)
    requires Safe(st) && SEnabled(st, WriteMessage(m))
    ensures Knows(SStep(how, st, WriteMessage(m)))
  {
  }

  lemma KnowsAddOpen(how: Arithmetic, st: State)
    requires Safe(st) && SEnabled(st, FetchAdd)
    requires Last(st.c.hist) == EMPTY
    ensures Knows(SStep(how, st, FetchAdd))
  {
  }

  lemma KnowsAddReceiving(how: Arithmetic, st: State)
    requires Safe(st) && SEnabled(st, FetchAdd)
    requires Last(st.c.hist) == RECEIVING
    ensures Knows(SStep(how, st, FetchAdd))
  {
  }

  lemma KnowsAddClosed(how: Arithmetic, st: State)
    requires Safe(st) && SEnabled(st, FetchAdd)
    requires Last(st.c.hist) != EMPTY && Last(st.c.hist) != RECEIVING
    ensures Knows(SStep(how, st, FetchAdd))
  {
  }

  lemma KnowsFetchAdd(how: Arithmetic, st: State)
    requires Safe(st) && SEnabled(st, FetchAdd)
    ensures Knows(SStep(how, st, FetchAdd))
  {
    if Last(st.c.hist) == EMPTY {
      KnowsAddOpen(how, st);
    } else if Last(st.c.hist) == RECEIVING {
      KnowsAddReceiving(how, st);
    } else {
      KnowsAddClosed(how, st);
    }
  }

  lemma KnowsXorOpen(how: Arithmetic, st: State)
    requires Safe(st) && SEnabled(st, FetchXor)
    requires Last(st.c.hist) == EMPTY
    ensures Knows(SStep(how, st, FetchXor))
  {
  }

  lemma KnowsXorReceiving(how: Arithmetic, st: State)
    requires Safe(st) && SEnabled(st, FetchXor)
    requires Last(st.c.hist) == RECEIVING
    ensures Knows(SStep(how, st, FetchXor))
  {
  }

  lemma KnowsXorClosed(how: Arithmetic, st: State)
    requires Safe(st) && SEnabled(st, FetchXor)
    requires Last(st.c.hist) != EMPTY && Last(st.c.hist) != RECEIVING
    ensures Knows(SStep(how, st, FetchXor))
  {
  }

  lemma KnowsFetchXor(how: Arithmetic, st: State)
    requires Safe(st) && SEnabled(st, FetchXor)
    ensures Knows(SStep(how, st, FetchXor))
  {
    if Last(st.c.hist) == EMPTY {
      KnowsXorOpen(how, st);
    } else if Last(st.c.hist) == RECEIVING {
      KnowsXorReceiving(how, st);
    } else {
      KnowsXorClosed(how, st);
    }
  }

  lemma KnowsTakeWaker(how: Arithmetic, st: State)
    requires Safe(st) && SEnabled(st, TakeWaker)
    ensures Knows(SStep(how, st, TakeWaker))
  {
  }

  lemma KnowsFinalSwap(how: Arithmetic, st: State)
    requires Safe(st) && SEnabled(st, FinalSwap)
    ensures Knows(SStep(how, st, FinalSwap))
  {
  }

  lemma KnowsUnpark(how: Arithmetic, st: State)
    requires Safe(st) && SEnabled(st, Unpark)
    ensures Knows(SStep(how, st, Unpark))
  {
  }

  lemma KnowsError(how: Arithmetic, st: State, a: SAct)
    requires Safe(st) && SEnabled(st, a) && (st.s.SError? || st.s.SErrorFree? || st.s.SDropFree?)
    ensures Knows(SStep(how, st, a))
  {
  }

  lemma KnowsLook(st: State, op: Op, i: nat)
    requires Safe(st) && REnabled(st, Begin(op, i)) && !st.r.async
    requires op.IsClosed? || op.HasMessage?
    ensures Knows(RStep(st, Begin(op, i)))
  {
  }

  lemma KnowsTry(st: State, op: Op, i: nat)
    requires Safe(st) && REnabled(st, Begin(op, i)) && !st.r.async
    requires op.TryRecv?
    ensures Knows(RStep(st, Begin(op, i)))
  {
  }

  lemma KnowsRecv(st: State, op: Op, i: nat)
    requires Safe(st) && REnabled(st, Begin(op, i)) && !st.r.async
    requires op.Recv? || op.RecvRef? || op.RecvDeadline?
    requires op.Recv?
    ensures Knows(RStep(st, Begin(op, i)))
  {
  }

  lemma KnowsRecvRef(st: State, op: Op, i: nat)
    requires Safe(st) && REnabled(st, Begin(op, i)) && !st.r.async
    requires op.Recv? || op.RecvRef? || op.RecvDeadline?
    requires op.RecvRef?
    ensures Knows(RStep(st, Begin(op, i)))
  {
  }

  lemma KnowsRecvDeadline(st: State, op: Op, i: nat)
    requires Safe(st) && REnabled(st, Begin(op, i)) && !st.r.async
    requires op.Recv? || op.RecvRef? || op.RecvDeadline?
    requires op.RecvDeadline?
    ensures Knows(RStep(st, Begin(op, i)))
  {
  }

  lemma KnowsBeginRecv(st: State, op: Op, i: nat)
    requires Safe(st) && REnabled(st, Begin(op, i)) && !st.r.async
    requires op.Recv? || op.RecvRef? || op.RecvDeadline?
    ensures Knows(RStep(st, Begin(op, i)))
  {
    if op.Recv? {
      KnowsRecv(st, op, i);
    } else if op.RecvRef? {
      KnowsRecvRef(st, op, i);
    } else {
      KnowsRecvDeadline(st, op, i);
    }
  }

  lemma KnowsBeginSync(st: State, op: Op, i: nat)
    requires Safe(st) && REnabled(st, Begin(op, i)) && !st.r.async
    ensures Knows(RStep(st, Begin(op, i)))
  {
    if op.IsClosed? || op.HasMessage? {
      KnowsLook(st, op, i);
    } else if op.TryRecv? {
      KnowsTry(st, op, i);
    } else {
      KnowsBeginRecv(st, op, i);
    }
  }

  lemma KnowsLookAsync(st: State, op: Op, i: nat)
    requires Safe(st) && REnabled(st, Begin(op, i)) && st.r.async
    requires op.IsClosed? || op.HasMessage?
    ensures Knows(RStep(st, Begin(op, i)))
  {
  }

  lemma KnowsBeginPoll(st: State, op: Op, i: nat)
    requires Safe(st) && REnabled(st, Begin(op, i)) && st.r.async
    requires op.Poll?
    ensures Knows(RStep(st, Begin(op, i)))
  {
  }

  lemma KnowsBeginDrop(st: State, op: Op, i: nat)
    requires Safe(st) && REnabled(st, Begin(op, i)) && st.r.async
    requires op.Drop?
    ensures Knows(RStep(st, Begin(op, i)))
  {
  }

  lemma KnowsBeginAsync(st: State, op: Op, i: nat)
    requires Safe(st) && REnabled(st, Begin(op, i)) && st.r.async
    ensures Knows(RStep(st, Begin(op, i)))
  {
    if op.IsClosed? || op.HasMessage? {
      KnowsLookAsync(st, op, i);
    } else if op.Poll? {
      KnowsBeginPoll(st, op, i);
    } else {
      KnowsBeginDrop(st, op, i);
    }
  }

  lemma KnowsIntoFuture(st: State)
    requires Safe(st) && REnabled(st, IntoFuture)
    ensures Knows(RStep(st, IntoFuture))
  {
  }

  lemma KnowsLoadCheck(st: State, i: nat)
    requires Safe(st) && REnabled(st, LoadAt(i)) && (st.r.RCheck? || st.r.RWaitCheck?)
    requires st.r.RCheck?
    ensures Knows(RStep(st, LoadAt(i)))
  {
  }

  lemma KnowsLoadWait(st: State, i: nat)
    requires Safe(st) && REnabled(st, LoadAt(i)) && (st.r.RCheck? || st.r.RWaitCheck?)
    requires st.r.RWaitCheck?
    ensures Knows(RStep(st, LoadAt(i)))
  {
  }

  lemma KnowsLoadParked(st: State, i: nat)
    requires Safe(st) && REnabled(st, LoadAt(i)) && (st.r.RCheck? || st.r.RWaitCheck?)
    ensures Knows(RStep(st, LoadAt(i)))
  {
    if st.r.RCheck? {
      KnowsLoadCheck(st, i);
    } else {
      KnowsLoadWait(st, i);
    }
  }

  lemma KnowsLoadArm(st: State, i: nat)
    requires Safe(st) && REnabled(st, LoadAt(i)) && (st.r.RArm? || st.r.RSpin?)
    requires st.r.RArm?
    ensures Knows(RStep(st, LoadAt(i)))
  {
  }

  lemma KnowsLoadSpin(st: State, i: nat)
    requires Safe(st) && REnabled(st, LoadAt(i)) && (st.r.RArm? || st.r.RSpin?)
    requires st.r.RSpin?
    ensures Knows(RStep(st, LoadAt(i)))
  {
  }

  lemma KnowsLoadPolled(st: State, i: nat)
    requires Safe(st) && REnabled(st, LoadAt(i)) && (st.r.RArm? || st.r.RSpin?)
    ensures Knows(RStep(st, LoadAt(i)))
  {
    if st.r.RArm? {
      KnowsLoadArm(st, i);
    } else {
      KnowsLoadSpin(st, i);
    }
  }

  lemma KnowsLoadPollAgain(st: State, i: nat)
    requires Safe(st) && REnabled(st, LoadAt(i)) && (st.r.RReplace? || st.r.RDropCas?)
    requires st.r.RReplace?
    ensures Knows(RStep(st, LoadAt(i)))
  {
  }

  lemma KnowsLoadDropCas(st: State, i: nat)
    requires Safe(st) && REnabled(st, LoadAt(i)) && (st.r.RReplace? || st.r.RDropCas?)
    requires st.r.RDropCas?
    ensures Knows(RStep(st, LoadAt(i)))
  {
  }

  lemma KnowsLoadReplace(st: State, i: nat)
    requires Safe(st) && REnabled(st, LoadAt(i)) && (st.r.RReplace? || st.r.RDropCas?)
    ensures Knows(RStep(st, LoadAt(i)))
  {
    if st.r.RReplace? {
      KnowsLoadPollAgain(st, i);
    } else {
      KnowsLoadDropCas(st, i);
    }
  }

  lemma KnowsSwapArm(st: State)
    requires Safe(st) && REnabled(st, Swap) && st.r.RArm?
    ensures Knows(RStep(st, Swap))
  {
  }

  lemma KnowsSwapDeadline(st: State)
    requires Safe(st) && REnabled(st, Swap) && st.r.RPark?
    ensures Knows(RStep(st, Swap))
  {
  }

  lemma KnowsSwapReplace(st: State)
    requires Safe(st) && REnabled(st, Swap) && (st.r.RReplace? || st.r.RDropCas?)
    ensures Knows(RStep(st, Swap))
  {
  }

  lemma KnowsSwapDropSync(st: State)
    requires Safe(st) && REnabled(st, Swap) && (st.r.RIdle? || st.r.RDropSwap?) && !RStep(st, Swap).g.broken
    requires st.r.RIdle?
    ensures Knows(RStep(st, Swap))
  {
  }

  lemma KnowsSwapDropAsync(st: State)
    requires Safe(st) && REnabled(st, Swap) && (st.r.RIdle? || st.r.RDropSwap?) && !RStep(st, Swap).g.broken
    requires st.r.RDropSwap?
    ensures Knows(RStep(st, Swap))
  {
  }

  lemma KnowsSwapDrop(st: State)
    requires Safe(st) && REnabled(st, Swap) && (st.r.RIdle? || st.r.RDropSwap?) && !RStep(st, Swap).g.broken
    ensures Knows(RStep(st, Swap))
  {
    if st.r.RIdle? {
      KnowsSwapDropSync(st);
    } else {
      KnowsSwapDropAsync(st);
    }
  }

  lemma KnowsPutEarly(st: State)
    requires Safe(st) && REnabled(st, PutWaker)
    requires Before(st)
    ensures Knows(RStep(st, PutWaker))
  {
  }

  lemma KnowsPutLate(st: State)
    requires Safe(st) && REnabled(st, PutWaker)
    requires !Before(st)
    ensures Knows(RStep(st, PutWaker))
  {
  }

  lemma KnowsPutWaker(st: State)
    requires Safe(st) && REnabled(st, PutWaker)
    ensures Knows(RStep(st, PutWaker))
  {
    if Before(st) {
      KnowsPutEarly(st);
    } else {
      KnowsPutLate(st);
    }
  }

  lemma KnowsDiscardOld(st: State)
    requires Safe(st) && REnabled(st, DiscardWaker) && !st.r.RTail?
    ensures Knows(RStep(st, DiscardWaker))
  {
  }

  lemma KnowsDiscardOwn(st: State)
    requires Safe(st) && REnabled(st, DiscardWaker) && st.r.RTail? && st.r.todo != TimedOut
    ensures Knows(RStep(st, DiscardWaker))
  {
  }

  lemma KnowsTimedOut(st: State)
    requires Safe(st) && REnabled(st, DiscardWaker) && st.r.RTail? && st.r.todo == TimedOut
    ensures Knows(RStep(st, DiscardWaker))
  {
  }

  lemma KnowsStore(st: State)
    requires Safe(st) && REnabled(st, StoreByte)
    ensures Knows(RStep(st, StoreByte))
  {
  }

  lemma KnowsFence(st: State)
    requires Safe(st) && REnabled(st, Fence)
    ensures Knows(RStep(st, Fence))
  {
  }

  lemma KnowsTake(st: State)
    requires Safe(st) && REnabled(st, TakeMessage)
    ensures Knows(RStep(st, TakeMessage))
  {
  }

  lemma KnowsDiscardMessage(st: State)
    requires Safe(st) && REnabled(st, DiscardMessage)
    ensures Knows(RStep(st, DiscardMessage))
  {
  }

  lemma KnowsFree(st: State)
    requires Safe(st) && REnabled(st, FreeCell)
    ensures Knows(RStep(st, FreeCell))
  {
  }

  lemma KnowsWakeSelf(st: State)
    requires Safe(st) && REnabled(st, WakeSelf)
    ensures Knows(RStep(st, WakeSelf))
  {
  }

  lemma KnowsSpurious(st: State, spurious: bool)
    requires Safe(st) && REnabled(st, Wake(spurious))
    requires spurious
    ensures Knows(RStep(st, Wake(spurious)))
  {
  }

  lemma KnowsUnparked(st: State, spurious: bool)
    requires Safe(st) && REnabled(st, Wake(spurious))
    requires !spurious
    ensures Knows(RStep(st, Wake(spurious)))
  {
  }

  lemma KnowsWake(st: State, spurious: bool)
    requires Safe(st) && REnabled(st, Wake(spurious))
    ensures Knows(RStep(st, Wake(spurious)))
  {
    if spurious {
      KnowsSpurious(st, spurious);
    } else {
      KnowsUnparked(st, spurious);
    }
  }
}
