/** The whole invariant, its preservation by every step, and its truth along every run. */
module Reachable {
  import opened States
  import opened Protocol
  import opened Invariant
  import opened LedgerInvariant
  import opened Wakeups
  import opened History

  lemma ControlLoad(st: State, i: nat)
    requires Tidy(st) && Control(st) && REnabled(st, LoadAt(i))
    ensures Control(RStep(st, LoadAt(i)))
  {
    if st.r.RCheck? || st.r.RWaitCheck? {
      ControlLoadParked(st, i);
    } else if st.r.RReplace? || st.r.RDropCas? {
      ControlLoadReplace(st, i);
    } else {
      ControlLoadPolled(st, i);
    }
  }

  lemma ControlSwap(st: State)
    requires Tidy(st) && Control(st) && REnabled(st, Swap) && !RStep(st, Swap).g.broken
    ensures Control(RStep(st, Swap))
  {
    if st.r.RArm? {
      ControlSwapArm(st);
    } else if st.r.RPark? {
      ControlSwapDeadline(st);
    } else if st.r.RReplace? || st.r.RDropCas? {
      ControlSwapReplace(st);
    } else {
      ControlSwapDrop(st);
    }
  }

  lemma ControlTail(st: State, a: RAct)
    requires Tidy(st) && Control(st) && REnabled(st, a) && st.r.RTail?
    ensures Control(RStep(st, a))
  {
    match a {
      case DiscardWaker => if st.r.todo == TimedOut { ControlTimedOut(st); } else { ControlDiscardOwn(st); }
      case StoreByte => ControlStore(st);
      case Fence => ControlFence(st);
      case TakeMessage => ControlTake(st);
      case DiscardMessage => ControlDiscardMessage(st);
      case FreeCell => ControlFree(st);
    }
  }

  lemma ControlRest(st: State, a: RAct)
    requires Tidy(st) && Control(st) && REnabled(st, a) && !a.LoadAt? && !a.Swap? && !st.r.RTail?
    ensures Control(RStep(st, a))
  {
    match a {
      case Begin(op, i) => if st.r.async { ControlBeginAsync(st, op, i); } else { ControlBeginSync(st, op, i); }
      case IntoFuture => ControlIntoFuture(st);
      case PutWaker => ControlPutWaker(st);
      case DiscardWaker => ControlDiscardOld(st);
      case DiscardMessage => ControlDiscardMessage(st);
      case WakeSelf => ControlWakeSelf(st);
      case Wake(spurious) => ControlWake(st, spurious);
    }
  }

  lemma ControlSender(how: Arithmetic, st: State, a: SAct)
    requires Tidy(st) && Control(st) && SEnabled(st, a)
    ensures Control(SStep(how, st, a))
  {
    match a {
      case SIsClosed(i) => ControlIsClosed(how, st, i);
      case WriteMessage(m) => ControlWriteMessage(how, st, m);
      case FetchAdd => ControlFetchAdd(how, st);
      case FetchXor => ControlFetchXor(how, st);
      case TakeWaker => ControlTakeWaker(how, st);
      case FinalSwap => ControlFinalSwap(how, st);
      case Unpark => ControlUnpark(how, st);
      case _ => ControlError(how, st, a);
    }
  }

  lemma KnowsLoad(st: State, i: nat)
    requires Safe(st) && REnabled(st, LoadAt(i))
    ensures Knows(RStep(st, LoadAt(i)))
  {
    if st.r.RCheck? || st.r.RWaitCheck? {
      KnowsLoadParked(st, i);
    } else if st.r.RReplace? || st.r.RDropCas? {
      KnowsLoadReplace(st, i);
    } else {
      KnowsLoadPolled(st, i);
    }
  }

  lemma KnowsSwap(st: State)
    requires Safe(st) && REnabled(st, Swap) && !RStep(st, Swap).g.broken
    ensures Knows(RStep(st, Swap))
  {
    if st.r.RArm? {
      KnowsSwapArm(st);
    } else if st.r.RPark? {
      KnowsSwapDeadline(st);
    } else if st.r.RReplace? || st.r.RDropCas? {
      KnowsSwapReplace(st);
    } else {
      KnowsSwapDrop(st);
    }
  }

  lemma KnowsTail(st: State, a: RAct)
    requires Safe(st) && REnabled(st, a) && st.r.RTail?
    ensures Knows(RStep(st, a))
  {
    match a {
      case DiscardWaker => if st.r.todo == TimedOut { KnowsTimedOut(st); } else { KnowsDiscardOwn(st); }
      case StoreByte => KnowsStore(st);
      case Fence => KnowsFence(st);
      case TakeMessage => KnowsTake(st);
      case DiscardMessage => KnowsDiscardMessage(st);
      case FreeCell => KnowsFree(st);
    }
  }

  lemma KnowsRest(st: State, a: RAct)
    requires Safe(st) && REnabled(st, a) && !a.LoadAt? && !a.Swap? && !st.r.RTail?
    ensures Knows(RStep(st, a))
  {
    match a {
      case Begin(op, i) => if st.r.async { KnowsBeginAsync(st, op, i); } else { KnowsBeginSync(st, op, i); }
      case IntoFuture => KnowsIntoFuture(st);
      case PutWaker => KnowsPutWaker(st);
      case DiscardWaker => KnowsDiscardOld(st);
      case DiscardMessage => KnowsDiscardMessage(st);
      case WakeSelf => KnowsWakeSelf(st);
      case Wake(spurious) => KnowsWake(st, spurious);
    }
  }

  lemma KnowsSender(how: Arithmetic, st: State, a: SAct)
    requires Safe(st) && SEnabled(st, a)
    ensures Knows(SStep(how, st, a))
  {
    match a {
      case SIsClosed(i) => KnowsIsClosed(how, st, i);
      case WriteMessage(m) => KnowsWriteMessage(how, st, m);
      case FetchAdd => KnowsFetchAdd(how, st);
      case FetchXor => KnowsFetchXor(how, st);
      case TakeWaker => KnowsTakeWaker(how, st);
      case FinalSwap => KnowsFinalSwap(how, st);
      case Unpark => KnowsUnpark(how, st);
      case _ => KnowsError(how, st, a);
    }
  }

  lemma WakeupsLoad(st: State, i: nat)
    requires Tidy(st) && Control(st) && WakersKept(st) && WakeupsKept(st) && REnabled(st, LoadAt(i))
    ensures WakeupsKept(RStep(st, LoadAt(i)))
  {
    if st.r.RCheck? || st.r.RWaitCheck? {
      WakeupsLoadParked(st, i);
    } else if st.r.RReplace? || st.r.RDropCas? {
      WakeupsLoadReplace(st, i);
    } else {
      WakeupsLoadPolled(st, i);
    }
  }

  lemma WakeupsSwap(st: State)
    requires Tidy(st) && Control(st) && WakersKept(st) && WakeupsKept(st) && REnabled(st, Swap)
    ensures WakeupsKept(RStep(st, Swap))
  {
    if st.r.RArm? {
      WakeupsSwapArm(st);
    } else if st.r.RPark? {
      WakeupsSwapDeadline(st);
    } else if st.r.RReplace? || st.r.RDropCas? {
      WakeupsSwapReplace(st);
    } else {
      WakeupsSwapDrop(st);
    }
  }

  lemma WakeupsSlots(st: State, a: RAct)
    requires Tidy(st) && Control(st) && WakersKept(st) && WakeupsKept(st) && REnabled(st, a)
    requires a.PutWaker? || a.DiscardWaker? || a.TakeMessage? || a.DiscardMessage?
    ensures WakeupsKept(RStep(st, a))
  {
    match a {
      case PutWaker => WakeupsPutWaker(st);
      case DiscardWaker => WakeupsDiscard(st);
      case _ => WakeupsMessage(st, a);
    }
  }

  lemma WakeupsByte(st: State, a: RAct)
    requires Tidy(st) && Control(st) && WakersKept(st) && WakeupsKept(st) && REnabled(st, a)
    requires a.Begin? || a.LoadAt? || a.Swap?
    ensures WakeupsKept(RStep(st, a))
  {
    match a {
      case Begin(op, i) => if op.Poll? { WakeupsBeginPoll(st, op, i); } else { WakeupsBegin(st, op, i); }
      case LoadAt(i) => WakeupsLoad(st, i);
      case Swap => WakeupsSwap(st);
    }
  }

  lemma WakeupsElse(st: State, a: RAct)
    requires Tidy(st) && Control(st) && WakersKept(st) && WakeupsKept(st) && REnabled(st, a)
    requires a.WakeSelf? || a.Wake? || a.IntoFuture? || a == Fence || a.FreeCell? || a.StoreByte?
    ensures WakeupsKept(RStep(st, a))
  {
    match a {
      case WakeSelf => WakeupsWakeSelf(st);
      case Wake(spurious) => WakeupsWake(st, spurious);
      case _ => WakeupsRest(st, a);
    }
  }

  lemma WakeupsReceiver(st: State, a: RAct)
    requires Tidy(st) && Control(st) && WakersKept(st) && WakeupsKept(st) && REnabled(st, a)
    ensures WakeupsKept(RStep(st, a))
  {
    if a.Begin? || a.LoadAt? || a.Swap? {
      WakeupsByte(st, a);
    } else if a.PutWaker? || a.DiscardWaker? || a.TakeMessage? || a.DiscardMessage? {
      WakeupsSlots(st, a);
    } else {
      WakeupsElse(st, a);
    }
  }

  lemma WakeupsOfSender(how: Arithmetic, st: State, a: SAct)
    requires Tidy(st) && Control(st) && WakersKept(st) && WakeupsKept(st) && SEnabled(st, a)
    ensures WakeupsKept(SStep(how, st, a))
  {
    if a.Unpark? {
      WakeupsUnpark(how, st);
    } else if a.FetchAdd? {
      WakeupsFetchAdd(how, st);
    } else if a.FetchXor? {
      WakeupsFetchXor(how, st);
    } else if a.TakeWaker? {
      WakeupsTakeWaker(how, st);
    } else if a.FinalSwap? {
      WakeupsFinalSwap(how, st);
    } else {
      WakeupsSender(how, st, a);
    }
  }

  /** What `Sender::is_closed` has told its caller still holds. */
  predicate ClosedSeen(st: State) {
    (Before(st) ==> forall i :: 0 <= i < |st.c.hist| - 1 ==> st.c.hist[i].val != DISCONNECTED) &&
    (forall i, j :: 0 <= i < j < |st.g.slog| && st.g.slog[i] ==> st.g.slog[j]) &&
    (forall i :: 0 <= i < |st.g.slog| && st.g.slog[i] ==>
      st.r.RDone? && (Owns(st) || (Before(st) && st.sv.cur.pos == |st.c.hist| - 1)))
  }

  lemma ClosedUpdate(how: Arithmetic, st: State, a: SAct)
    requires Tidy(st) && Control(st) && ClosedSeen(st) && SEnabled(st, a) && (a.FetchAdd? || a.FetchXor?)
    ensures ClosedSeen(SStep(how, st, a))
  {
  }

  lemma ClosedLook(how: Arithmetic, st: State, i: nat)
    requires Tidy(st) && Control(st) && ClosedSeen(st) && SEnabled(st, SIsClosed(i))
    ensures ClosedSeen(SStep(how, st, SIsClosed(i)))
  {
  }

  lemma ClosedSender(how: Arithmetic, st: State, a: SAct)
    requires Tidy(st) && Control(st) && ClosedSeen(st) && SEnabled(st, a)
    ensures ClosedSeen(SStep(how, st, a))
  {
    if a.FetchAdd? || a.FetchXor? {
      ClosedUpdate(how, st, a);
    } else if a.SIsClosed? {
      ClosedLook(how, st, a.i);
    }
  }

  lemma ClosedLoad(st: State, a: RAct)
    requires Tidy(st) && Control(st) && ClosedSeen(st) && REnabled(st, a)
    requires a.Begin? || a.LoadAt?
    ensures ClosedSeen(RStep(st, a))
  {
    ReceiverFrame(st, a);
  }

  lemma ClosedWrite(st: State, a: RAct)
    requires Tidy(st) && Control(st) && ClosedSeen(st) && REnabled(st, a)
    requires a.Swap? || a.StoreByte?
    ensures ClosedSeen(RStep(st, a))
  {
    ReceiverFrame(st, a);
  }

  lemma ClosedOther(st: State, a: RAct)
    requires Tidy(st) && Control(st) && ClosedSeen(st) && REnabled(st, a)
    requires !a.Begin? && !a.LoadAt? && !a.Swap? && !a.StoreByte?
    ensures ClosedSeen(RStep(st, a))
  {
    ReceiverFrame(st, a);
  }

  lemma ClosedReceiver(st: State, a: RAct)
    requires Tidy(st) && Control(st) && ClosedSeen(st) && REnabled(st, a)
    ensures ClosedSeen(RStep(st, a))
  {
    if a.Begin? || a.LoadAt? {
      ClosedLoad(st, a);
    } else if a.Swap? || a.StoreByte? {
      ClosedWrite(st, a);
    } else {
      ClosedOther(st, a);
    }
  }

  /** Everything that holds in every reachable state. */
  ghost predicate Good(st: State) {
    Safe(st) && MessageKept(st) && WakersKept(st) && ResultsTrue(st) && WakeupsKept(st) && HistoryKept(st) &&
    ClosedSeen(st)
  }

  lemma GoodSender(how: Arithmetic, st: State, a: SAct)
    requires Good(st) && SEnabled(st, a)
    ensures Good(SStep(how, st, a))
  {
    TidySender(how, st, a);
    ControlSender(how, st, a);
    KnowsSender(how, st, a);
    MessageSender(how, st, a);
    WakersSender(how, st, a);
    ResultsSender(how, st, a);
    WakeupsOfSender(how, st, a);
    HistorySender(how, st, a);
    ClosedSender(how, st, a);
  }

  lemma SafeReceiver(st: State, a: RAct)
    requires Safe(st) && REnabled(st, a) && !RStep(st, a).g.broken
    ensures Safe(RStep(st, a))
  {
    TidyReceiver(st, a);
    if a.LoadAt? {
      ControlLoad(st, a.i);
      KnowsLoad(st, a.i);
    } else if a.Swap? {
      ControlSwap(st);
      KnowsSwap(st);
    } else if st.r.RTail? {
      ControlTail(st, a);
      KnowsTail(st, a);
    } else {
      ControlRest(st, a);
      KnowsRest(st, a);
    }
  }

  lemma GoodReceiver(st: State, a: RAct)
    requires Good(st) && REnabled(st, a) && !RStep(st, a).g.broken
    ensures Good(RStep(st, a))
  {
    SafeReceiver(st, a);
    MessageReceiver(st, a);
    WakersReceiver(st, a);
    ResultsReceiver(st, a);
    WakeupsReceiver(st, a);
    HistoryReceiver(st, a);
    ClosedReceiver(st, a);
  }

  lemma GoodStep(how: Arithmetic, st: State, l: Label)
    requires Good(st) && Enabled(st, l) && !Step(how, st, l).g.broken
    ensures Good(Step(how, st, l))
  {
    match l {
      case S(a) => GoodSender(how, st, a);
      case R(a) => GoodReceiver(st, a);
    }
  }

  lemma GoodInit()
    ensures Good(Init)
  {
  }

  /** A run that ends unbroken was never broken. */
  lemma {:induction false} StaysBroken(how: Arithmetic, st: State, run: seq<Label>)
    requires Runs(how, st, run) && st.g.broken
    ensures After(how, st, run).g.broken
    decreases |run|
  {
    if run != [] {
      StaysBroken(how, Step(how, st, run[0]), run[1..]);
    }
  }

  lemma {:induction false} GoodRun(how: Arithmetic, st: State, run: seq<Label>)
    requires Good(st) && Runs(how, st, run) && !After(how, st, run).g.broken
    ensures Good(After(how, st, run))
    decreases |run|
  {
    if run != [] {
      var st' := Step(how, st, run[0]);
      if st'.g.broken {
        StaysBroken(how, st', run[1..]);
      }
      GoodStep(how, st, run[0]);
      GoodRun(how, st', run[1..]);
    }
  }
}
