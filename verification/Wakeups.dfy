/** Whom the stored or taken waker wakes, where the unpark token is, and what a pending poll
    may rely on. */
module Wakeups {
  import opened States
  import opened Protocol
  import opened Invariant
  import opened LedgerInvariant

  /** The one waker that is stored or held by the sender. */
  function Handle(st: State): Option<nat> {
    if st.c.waker.Some? then st.c.waker else SenderHolds(st.s)
  }

  predicate HandleIs(st: State, who: Who) {
    var h := Handle(st);
    h.Some? ==> h.value < |st.g.wakers| && st.g.wakers[h.value] == who
  }

  /** The token that will end the next park is there and shows the sender's final state. */
  predicate TokenReady(st: State, t: nat) {
    t in st.g.tokens && st.g.tokens[t].pos == |st.c.hist| - 1
  }

  /** `task` was woken after the last poll began. */
  predicate Woken(st: State, task: nat) {
    exists k :: st.g.mark <= k < |st.g.wakes| && st.g.wakes[k] == Task(task)
  }

  predicate PollHeard(st: State, task: nat)
    requires st.c.hist != []
  {
    Armed(st) && (Woken(st, task) || (HandleIs(st, Task(task)) && !st.s.SFinished?))
  }

  predicate WakeupsKept(st: State)
  {
    st.c.hist != [] && st.g.mark <= |st.g.wakes| &&
    (st.s.SUnpark? && AwaitsToken(st.r) ==> st.sv.cur.pos == |st.c.hist| - 1) &&
    (st.g.polled.Some? ==> AfterPoll(st.r)) &&
    match st.r
    case RArm(op) => HandleIs(st, OpWho(op))
    case RPark(op) => HandleIs(st, OpWho(op)) && (st.s.SFinished? ==> TokenReady(st, OpThread(op)))
    case RWaitPark(op, _) => HandleIs(st, OpWho(op)) && (st.s.SFinished? ==> TokenReady(st, OpThread(op)))
    case RCheck(op) =>
      HandleIs(st, OpWho(op)) && (st.s.SFinished? ==> UpToDate(st) || TokenReady(st, OpThread(op)))
    case RWaitCheck(op, _) =>
      HandleIs(st, OpWho(op)) && (st.s.SFinished? ==> UpToDate(st) || TokenReady(st, OpThread(op)))
    case RIdle(_) => st.g.polled.Some? ==> PollHeard(st, st.g.polled.value)
    case _ => true
  }

  /** A pending poll is followed by nothing but observers until the next poll or the drop. */
  predicate AfterPoll(r: RPc) {
    r == RIdle(true) || r.RDropCas? || r.RDropOld? || r.RDropSwap? || r.RDropSpin? || r.RDropSpinMsg? ||
    (r.RTail? && r.op.Drop?) || r.RDone? || r.RPanic?
  }

  predicate AwaitsToken(r: RPc) {
    r.RPark? || r.RCheck? || r.RWaitPark? || r.RWaitCheck?
  }

  lemma WakeupsUnpark(how: Arithmetic, st: State)
    requires Tidy(st) && Control(st) && WakersKept(st) && WakeupsKept(st) && SEnabled(st, Unpark)
    ensures WakeupsKept(SStep(how, st, Unpark))
  {
    var wakes := SStep(how, st, Unpark).g.wakes;
    assert wakes[|st.g.wakes|] == st.g.wakers[st.s.w];
    assert forall k :: 0 <= k < |st.g.wakes| ==> wakes[k] == st.g.wakes[k];
  }

  lemma WakeupsFetchAdd(how: Arithmetic, st: State)
    requires Tidy(st) && Control(st) && WakersKept(st) && WakeupsKept(st) && SEnabled(st, FetchAdd)
    ensures WakeupsKept(SStep(how, st, FetchAdd))
  {
  }

  lemma WakeupsFetchXor(how: Arithmetic, st: State)
    requires Tidy(st) && Control(st) && WakersKept(st) && WakeupsKept(st) && SEnabled(st, FetchXor)
    ensures WakeupsKept(SStep(how, st, FetchXor))
  {
  }

  lemma WakeupsTakeWaker(how: Arithmetic, st: State)
    requires Tidy(st) && Control(st) && WakersKept(st) && WakeupsKept(st) && SEnabled(st, TakeWaker)
    ensures WakeupsKept(SStep(how, st, TakeWaker))
  {
  }

  lemma WakeupsFinalSwap(how: Arithmetic, st: State)
    requires Tidy(st) && Control(st) && WakersKept(st) && WakeupsKept(st) && SEnabled(st, FinalSwap)
    ensures WakeupsKept(SStep(how, st, FinalSwap))
  {
  }

  lemma WakeupsSender(how: Arithmetic, st: State, a: SAct)
    requires Tidy(st) && Control(st) && WakersKept(st) && WakeupsKept(st) && SEnabled(st, a)
    requires !a.Unpark? && !a.FetchAdd? && !a.FetchXor? && !a.TakeWaker? && !a.FinalSwap?
    ensures WakeupsKept(SStep(how, st, a))
  {
  }

  lemma WakeupsBeginPoll(st: State, op: Op, i: nat)
    requires Tidy(st) && Control(st) && WakersKept(st) && WakeupsKept(st) && REnabled(st, Begin(op, i)) && op.Poll?
    ensures WakeupsKept(RStep(st, Begin(op, i)))
  {
  }

  lemma WakeupsLook(st: State, op: Op, i: nat)
    requires Tidy(st) && Control(st) && WakersKept(st) && WakeupsKept(st) && REnabled(st, Begin(op, i)) && !op.Poll?
    requires op.IsClosed? || op.HasMessage? || op.Drop?
    ensures WakeupsKept(RStep(st, Begin(op, i)))
  {
  }

  lemma WakeupsBeginRecv(st: State, op: Op, i: nat)
    requires Tidy(st) && Control(st) && WakersKept(st) && WakeupsKept(st) && REnabled(st, Begin(op, i)) && !op.Poll?
    requires !op.IsClosed? && !op.HasMessage? && !op.Drop?
    ensures WakeupsKept(RStep(st, Begin(op, i)))
  {
  }

  lemma WakeupsBegin(st: State, op: Op, i: nat)
    requires Tidy(st) && Control(st) && WakersKept(st) && WakeupsKept(st) && REnabled(st, Begin(op, i)) && !op.Poll?
    ensures WakeupsKept(RStep(st, Begin(op, i)))
  {
    if op.IsClosed? || op.HasMessage? || op.Drop? {
      WakeupsLook(st, op, i);
    } else {
      WakeupsBeginRecv(st, op, i);
    }
  }

  lemma WakeupsLoadCheck(st: State, i: nat)
    requires Tidy(st) && Control(st) && WakersKept(st) && WakeupsKept(st) && REnabled(st, LoadAt(i)) && (st.r.RCheck? || st.r.RWaitCheck?)
    requires st.r.RCheck?
    ensures WakeupsKept(RStep(st, LoadAt(i)))
  {
  }

  lemma WakeupsLoadWait(st: State, i: nat)
    requires Tidy(st) && Control(st) && WakersKept(st) && WakeupsKept(st) && REnabled(st, LoadAt(i)) && (st.r.RCheck? || st.r.RWaitCheck?)
    requires st.r.RWaitCheck?
    ensures WakeupsKept(RStep(st, LoadAt(i)))
  {
  }

  lemma WakeupsLoadParked(st: State, i: nat)
    requires Tidy(st) && Control(st) && WakersKept(st) && WakeupsKept(st) && REnabled(st, LoadAt(i)) && (st.r.RCheck? || st.r.RWaitCheck?)
    ensures WakeupsKept(RStep(st, LoadAt(i)))
  {
    if st.r.RCheck? {
      WakeupsLoadCheck(st, i);
    } else {
      WakeupsLoadWait(st, i);
    }
  }

  lemma WakeupsLoadReplace(st: State, i: nat)
    requires Tidy(st) && Control(st) && WakersKept(st) && WakeupsKept(st) && REnabled(st, LoadAt(i)) && (st.r.RReplace? || st.r.RDropCas?)
    ensures WakeupsKept(RStep(st, LoadAt(i)))
  {
  }

  lemma WakeupsLoadPolled(st: State, i: nat)
    requires Tidy(st) && Control(st) && WakersKept(st) && WakeupsKept(st) && REnabled(st, LoadAt(i)) && !st.r.RCheck? && !st.r.RWaitCheck? && !st.r.RReplace? && !st.r.RDropCas?
    ensures WakeupsKept(RStep(st, LoadAt(i)))
  {
  }

  lemma WakeupsSwapArm(st: State)
    requires Tidy(st) && Control(st) && WakersKept(st) && WakeupsKept(st) && REnabled(st, Swap) && st.r.RArm?
    ensures WakeupsKept(RStep(st, Swap))
  {
  }

  lemma WakeupsSwapDeadline(st: State)
    requires Tidy(st) && Control(st) && WakersKept(st) && WakeupsKept(st) && REnabled(st, Swap) && st.r.RPark?
    ensures WakeupsKept(RStep(st, Swap))
  {
  }

  lemma WakeupsSwapReplace(st: State)
    requires Tidy(st) && Control(st) && WakersKept(st) && WakeupsKept(st) && REnabled(st, Swap) && (st.r.RReplace? || st.r.RDropCas?)
    ensures WakeupsKept(RStep(st, Swap))
  {
  }

  lemma WakeupsSwapDropSync(st: State)
    requires Tidy(st) && Control(st) && WakersKept(st) && WakeupsKept(st) && REnabled(st, Swap) && (st.r.RIdle? || st.r.RDropSwap?)
    requires st.r.RIdle?
    ensures WakeupsKept(RStep(st, Swap))
  {
  }

  lemma WakeupsSwapDropAsync(st: State)
    requires Tidy(st) && Control(st) && WakersKept(st) && WakeupsKept(st) && REnabled(st, Swap) && (st.r.RIdle? || st.r.RDropSwap?)
    requires st.r.RDropSwap?
    ensures WakeupsKept(RStep(st, Swap))
  {
  }

  lemma WakeupsSwapDrop(st: State)
    requires Tidy(st) && Control(st) && WakersKept(st) && WakeupsKept(st) && REnabled(st, Swap) && (st.r.RIdle? || st.r.RDropSwap?)
    ensures WakeupsKept(RStep(st, Swap))
  {
    if st.r.RIdle? {
      WakeupsSwapDropSync(st);
    } else {
      WakeupsSwapDropAsync(st);
    }
  }

  lemma WakeupsWakeSelf(st: State)
    requires Tidy(st) && Control(st) && WakersKept(st) && WakeupsKept(st) && REnabled(st, WakeSelf)
    ensures WakeupsKept(RStep(st, WakeSelf))
  {
    assert RStep(st, WakeSelf).g.wakes[|st.g.wakes|] == OpWho(st.r.op);
  }

  lemma WakeupsWake(st: State, spurious: bool)
    requires Tidy(st) && Control(st) && WakersKept(st) && WakeupsKept(st) && REnabled(st, Wake(spurious))
    ensures WakeupsKept(RStep(st, Wake(spurious)))
  {
  }

  lemma WakeupsPutWaker(st: State)
    requires Tidy(st) && Control(st) && WakersKept(st) && WakeupsKept(st) && REnabled(st, PutWaker)
    ensures WakeupsKept(RStep(st, PutWaker))
  {
  }

  lemma WakeupsRest(st: State, a: RAct)
    requires Tidy(st) && Control(st) && WakersKept(st) && WakeupsKept(st) && REnabled(st, a) && (a.IntoFuture? || a == Fence || a.FreeCell? || a.StoreByte?)
    ensures WakeupsKept(RStep(st, a))
  {
  }

  lemma WakeupsDiscardOwn(st: State)
    requires Tidy(st) && Control(st) && WakersKept(st) && WakeupsKept(st) && REnabled(st, DiscardWaker)
    requires st.r.RTail?
    ensures WakeupsKept(RStep(st, DiscardWaker))
  {
  }

  lemma WakeupsDiscardOld(st: State)
    requires Tidy(st) && Control(st) && WakersKept(st) && WakeupsKept(st) && REnabled(st, DiscardWaker)
    requires !st.r.RTail?
    ensures WakeupsKept(RStep(st, DiscardWaker))
  {
  }

  lemma WakeupsDiscard(st: State)
    requires Tidy(st) && Control(st) && WakersKept(st) && WakeupsKept(st) && REnabled(st, DiscardWaker)
    ensures WakeupsKept(RStep(st, DiscardWaker))
  {
    if st.r.RTail? {
      WakeupsDiscardOwn(st);
    } else {
      WakeupsDiscardOld(st);
    }
  }

  lemma WakeupsMessage(st: State, a: RAct)
    requires Tidy(st) && Control(st) && WakersKept(st) && WakeupsKept(st) && REnabled(st, a) && (a.TakeMessage? || a.DiscardMessage?)
    ensures WakeupsKept(RStep(st, a))
  {
  }
}
