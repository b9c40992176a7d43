/** What one step does to what the code of the two sides can see: the byte, the slots, the
    allocation and the results. */
module Effects {
  import opened States
  import opened Memory
  import opened Protocol
  import opened Invariant
  import opened LedgerInvariant

  /** The byte a receiver step leaves. */
  function ByteAfter(st: State, a: RAct): Byte
    requires REnabled(st, a)
  {
    if a.Swap? then SwapValue(st.r) else if a.StoreByte? then DISCONNECTED else Last(st.c.hist)
  }

  predicate ReceiverShows(st: State, a: RAct, st': State)
    requires REnabled(st, a)
  {
    Framed(st, a, st') &&
    st'.r == MoveOf(st, a).r && st'.c.hist != [] && Last(st'.c.hist) == ByteAfter(st, a) &&
    st'.c.live == (if a.FreeCell? then false else st.c.live) && st'.g.broken == (st.g.broken || MoveOf(st, a).broken) &&
    (a.DiscardWaker? ==> st'.c.waker.None?) &&
    (a.PutWaker? ==> st'.c.waker == Some(|st.g.wakers|) && st'.g.wakers == st.g.wakers + [OpWho(st.r.op)]) &&
    (a.WakeSelf? ==> st'.g.wakes == st.g.wakes + [OpWho(st.r.op)]) &&
    (MoveOf(st, a).out == Some(Pending) && (st.r.RArm? || st.r.RSelfWake?) && st.r.op.Poll? ==>
      st'.g.polled == Some(st.r.op.task))
  }

  lemma ShowsByte(st: State, a: RAct)
    requires REnabled(st, a) && (a.Begin? || a.LoadAt? || a.Swap? || a.StoreByte?)
    ensures ReceiverShows(st, a, RStep(st, a))
  {
    FrameByte(st, a);
  }

  lemma ShowsWaker(st: State, a: RAct)
    requires REnabled(st, a) && (a.PutWaker? || a.DiscardWaker?)
    ensures ReceiverShows(st, a, RStep(st, a))
  {
    FrameWaker(st, a);
  }

  lemma ShowsOther(st: State, a: RAct)
    requires REnabled(st, a) && !a.Begin? && !a.LoadAt? && !a.Swap? && !a.StoreByte? && !a.PutWaker? && !a.DiscardWaker?
    ensures ReceiverShows(st, a, RStep(st, a))
  {
    ReceiverFrame(st, a);
  }

  lemma ReceiverEffect(st: State, a: RAct)
    requires REnabled(st, a)
    ensures ReceiverShows(st, a, RStep(st, a))
  {
    if a.Begin? || a.LoadAt? || a.Swap? || a.StoreByte? {
      ShowsByte(st, a);
    } else if a.PutWaker? || a.DiscardWaker? {
      ShowsWaker(st, a);
    } else {
      ShowsOther(st, a);
    }
  }

  /** What a receiver step does to how far the receiver has read. */
  predicate Sees(st: State, a: RAct, st': State)
    requires REnabled(st, a)
  {
    (!a.Swap? && !a.StoreByte? ==> st'.c.hist == st.c.hist) &&
    (a.Swap? || a.StoreByte? ==> UpToDate(st')) &&
    (a.Begin? || a.LoadAt? ==> (UpToDate(st') <==> a.i == |st.c.hist| - 1)) &&
    (!a.Begin? && !a.LoadAt? && UpToDate(st) ==> UpToDate(st')) &&
    (a == Wake(false) && st.g.tokens[OpThread(st.r.op)].pos == |st.c.hist| - 1 ==> UpToDate(st'))
  }

  lemma SeesByte(st: State, a: RAct)
    requires Tidy(st) && REnabled(st, a) && (a.Begin? || a.LoadAt? || a.Swap? || a.StoreByte?)
    ensures Sees(st, a, RStep(st, a))
  {
  }

  lemma SeesOther(st: State, a: RAct)
    requires Tidy(st) && REnabled(st, a) && !a.Begin? && !a.LoadAt? && !a.Swap? && !a.StoreByte?
    ensures Sees(st, a, RStep(st, a))
  {
  }

  lemma ReceiverSees(st: State, a: RAct)
    requires Tidy(st) && REnabled(st, a)
    ensures Sees(st, a, RStep(st, a))
  {
    if a.Begin? || a.LoadAt? || a.Swap? || a.StoreByte? {
      SeesByte(st, a);
    } else {
      SeesOther(st, a);
    }
  }

  predicate SenderShows(st: State, a: SAct, st': State)
    requires SEnabled(st, a)
  {
    st'.r == st.r && st'.g.log == st.g.log && st'.g.wakers == st.g.wakers && st'.c.hist != [] &&
    (!a.FetchAdd? && !a.FetchXor? && !a.FinalSwap? ==> st'.c.hist == st.c.hist) &&
    st'.c.live == (if a.SFree? then false else st.c.live) &&
    (!a.WriteMessage? ==> st'.g.sent == st.g.sent) && (!a.SIsClosed? ==> st'.g.slog == st.g.slog) &&
    (!a.TakeWaker? ==> st'.c.waker == st.c.waker) &&
    (!a.WriteMessage? && !a.TakeError? && !a.DropError? ==> st'.c.msg == st.c.msg) &&
    (!a.TakeError? && !a.DropError? ==> st'.g.fates == st.g.fates) &&
    match a
    case SIsClosed(i) => st'.s == st.s && st'.g.slog == st.g.slog + [st.c.hist[i].val == DISCONNECTED]
    case WriteMessage(m) => st'.s == SPublish && st'.c.msg == Some(m) && st'.g.sent == Some(m)
    case FetchAdd =>
      st'.s == SenderMatch(Last(st.c.hist), true) && st'.g.sendOk == SendResult(st'.s) &&
      Last(st'.c.hist) == Last(st.c.hist) + 1
    case FetchXor =>
      st'.s == SenderMatch(Last(st.c.hist), false) && st'.g.sendOk == SendResult(st'.s) &&
      Last(st'.c.hist) == Last(st.c.hist) ^ 1
    case TakeWaker =>
      (st.c.waker.Some? ==> st'.s == SFinalSwap(st.s.sending, st.c.waker.value)) && st'.c.waker.None?
    case FinalSwap =>
      st'.s == SUnpark(st.s.sending, st.s.w) && Last(st'.c.hist) == if st.s.sending then MESSAGE else DISCONNECTED
    case Unpark =>
      st'.s == SFinished(st.s.sending, true) && st'.g.sendOk == SendResult(st'.s) &&
      st'.g.unparked == st.g.unparked + multiset{st.s.w} && st'.g.wakes == st.g.wakes + [st.g.wakers[st.s.w]]
    case PeekError => st'.s == st.s
    case TakeError =>
      st'.s == SErrorFree && st'.c.msg.None? &&
      (st.c.msg.Some? ==> st'.g.fates == st.g.fates + [IntoInner(st.c.msg.value)])
    case DropError =>
      st'.s == SErrorFree && st'.c.msg.None? &&
      (st.c.msg.Some? ==> st'.g.fates == st.g.fates + [DroppedWithError(st.c.msg.value)])
    case SFree => st'.s.SReleased?
  }

  lemma ShowsUpdate(st: State, a: SAct)
    requires SEnabled(st, a) && (a.FetchAdd? || a.FetchXor? || a.FinalSwap?)
    ensures SenderShows(st, a, SStep(Fast, st, a))
  {
  }

  lemma ShowsRest(st: State, a: SAct)
    requires SEnabled(st, a) && !a.FetchAdd? && !a.FetchXor? && !a.FinalSwap?
    ensures SenderShows(st, a, SStep(Fast, st, a))
  {
  }

  lemma SenderEffect(st: State, a: SAct)
    requires SEnabled(st, a)
    ensures SenderShows(st, a, SStep(Fast, st, a))
  {
    if a.FetchAdd? || a.FetchXor? || a.FinalSwap? {
      ShowsUpdate(st, a);
    } else {
      ShowsRest(st, a);
    }
  }
}
