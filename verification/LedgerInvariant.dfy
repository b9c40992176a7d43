/**
 What the ledger says of the message, the wakers and the sender's call in every reachable
 state: nothing is lost, nothing is disposed of twice.
 */
module LedgerInvariant {
  import opened States
  import opened Protocol
  import opened Invariant

  /** What a receiver step may change in the slots and in the ledger. */
  predicate Framed(st: State, a: RAct, st': State)
    requires REnabled(st, a)
  {
    st'.s == st.s && st'.g.sent == st.g.sent && st'.g.sendOk == st.g.sendOk &&
    st'.g.unparked == st.g.unparked && st'.g.slog == st.g.slog &&
    st'.c.msg == (if a.TakeMessage? || a.DiscardMessage? then None else st.c.msg) &&
    st'.g.fates == st.g.fates +
      (if a.TakeMessage? && st.c.msg.Some? then [Received(st.c.msg.value)]
       else if a.DiscardMessage? && st.c.msg.Some? then [DroppedByReceiver(st.c.msg.value)] else []) &&
    (!a.PutWaker? ==> st'.g.wakers == st.g.wakers) &&
    (!a.PutWaker? && !a.DiscardWaker? ==> st'.c.waker == st.c.waker) &&
    st'.g.dropped == (if a.DiscardWaker? then st.g.dropped + Held(st.c.waker) else st.g.dropped) &&
    (!a.WakeSelf? ==> st'.g.wakes == st.g.wakes) &&
    (!a.Wake? ==> st'.g.tokens == st.g.tokens) &&
    (!a.FreeCell? ==> st'.g.frees == st.g.frees) &&
    st'.g.log == st.g.log + (if MoveOf(st, a).out.Some? then [MoveOf(st, a).out.value] else []) &&
    (st.r.RTail? ==> a == Head(st.r.todo) && st'.r == TailMatch(st.r.op, st.r.todo, st.c.msg).r &&
                     st'.g.broken == st.g.broken && st'.g.polled == st.g.polled)
  }

  lemma FrameByte(st: State, a: RAct)
    requires REnabled(st, a)
    requires a.Begin? || a.LoadAt? || a.Swap? || a.StoreByte?
    ensures Framed(st, a, RStep(st, a))
  {
  }

  lemma FrameWaker(st: State, a: RAct)
    requires REnabled(st, a)
    requires a.PutWaker? || a.DiscardWaker?
    ensures Framed(st, a, RStep(st, a))
  {
  }

  lemma FrameMessage(st: State, a: RAct)
    requires REnabled(st, a)
    requires a.TakeMessage? || a.DiscardMessage?
    ensures Framed(st, a, RStep(st, a))
  {
  }

  lemma FrameOther(st: State, a: RAct)
    requires REnabled(st, a)
    requires a.IntoFuture? || a == Fence || a.FreeCell? || a.WakeSelf? || a.Wake?
    ensures Framed(st, a, RStep(st, a))
  {
  }

  lemma ReceiverFrame(st: State, a: RAct)
    requires REnabled(st, a)
    ensures Framed(st, a, RStep(st, a))
  {
    if a.Begin? || a.LoadAt? || a.Swap? || a.StoreByte? {
      FrameByte(st, a);
    } else if a.PutWaker? || a.DiscardWaker? {
      FrameWaker(st, a);
    } else if a.TakeMessage? || a.DiscardMessage? {
      FrameMessage(st, a);
    } else {
      FrameOther(st, a);
    }
  }

  predicate Sound(f: Fate, s: SPc) {
    match f
    case Received(_) => s.SUnpark? || s.SFinished?
    case DroppedByReceiver(_) => s.SUnpark? || s.SFinished?
    case IntoInner(_) => s.SErrorFree? || s.SReleased?
    case DroppedWithError(_) => s.SErrorFree? || s.SReleased?
  }

  /** A message given to send is either still in the slot or has met exactly one fate. */
  predicate MessageKept(st: State) {
    (st.g.sent.None? ==> st.c.msg.None? && st.g.fates == []) &&
    (st.g.sent.Some? ==>
      (st.c.msg == st.g.sent && st.g.fates == []) ||
      (st.c.msg.None? && |st.g.fates| == 1 && st.g.fates[0].m == st.g.sent.value && Sound(st.g.fates[0], st.s))) &&
    (st.g.sendOk.Some? ==> Sending(st.s) && (if st.g.sendOk.value then st.s.SFinished? else Owns(st))) &&
    (st.s.SFinished? || Owns(st) ==> (st.g.sendOk.Some? <==> Sending(st.s)))
  }

  lemma MessageUpdate(how: Arithmetic, st: State, a: SAct)
    requires Control(st) && MessageKept(st) && SEnabled(st, a) && (a.FetchAdd? || a.FetchXor?)
    ensures MessageKept(SStep(how, st, a))
  {
  }

  lemma MessageOwned(how: Arithmetic, st: State, a: SAct)
    requires Control(st) && MessageKept(st) && SEnabled(st, a) && Owns(st)
    ensures MessageKept(SStep(how, st, a))
  {
  }

  lemma MessageWrite(how: Arithmetic, st: State, a: SAct)
    requires Control(st) && MessageKept(st) && SEnabled(st, a) && !a.FetchAdd? && !a.FetchXor? && !Owns(st)
    requires a.WriteMessage? || a.Unpark?
    ensures MessageKept(SStep(how, st, a))
  {
  }

  lemma MessageWaking(how: Arithmetic, st: State, a: SAct)
    requires Control(st) && MessageKept(st) && SEnabled(st, a) && !a.FetchAdd? && !a.FetchXor? && !Owns(st)
    requires !a.WriteMessage? && !a.Unpark?
    ensures MessageKept(SStep(how, st, a))
  {
  }

  lemma MessageOther(how: Arithmetic, st: State, a: SAct)
    requires Control(st) && MessageKept(st) && SEnabled(st, a) && !a.FetchAdd? && !a.FetchXor? && !Owns(st)
    ensures MessageKept(SStep(how, st, a))
  {
    if a.WriteMessage? || a.Unpark? {
      MessageWrite(how, st, a);
    } else {
      MessageWaking(how, st, a);
    }
  }

  lemma MessageSender(how: Arithmetic, st: State, a: SAct)
    requires Control(st) && MessageKept(st) && SEnabled(st, a)
    ensures MessageKept(SStep(how, st, a))
  {
    if a.FetchAdd? || a.FetchXor? {
      MessageUpdate(how, st, a);
    } else if Owns(st) {
      MessageOwned(how, st, a);
    } else {
      MessageOther(how, st, a);
    }
  }

  lemma MessageReceiver(st: State, a: RAct)
    requires Control(st) && MessageKept(st) && REnabled(st, a)
    ensures MessageKept(RStep(st, a))
  {
    ReceiverFrame(st, a);
  }

  function Count(w: Option<nat>, i: nat): nat {
    if w == Some(i) then 1 else 0
  }

  function SenderHolds(s: SPc): Option<nat> {
    if s.SFinalSwap? || s.SUnpark? then Some(s.w) else None
  }

  /** Every waker ever written is in exactly one place: the slot, the sender's hands, dropped
      in place once, or consumed by unpark once. */
  ghost predicate WakersKept(st: State) {
    forall i: nat ::
      st.g.dropped[i] + st.g.unparked[i] + Count(st.c.waker, i) + Count(SenderHolds(st.s), i)
      == (if i < |st.g.wakers| then 1 else 0)
  }

  lemma WakersSender(how: Arithmetic, st: State, a: SAct)
    requires Control(st) && WakersKept(st) && SEnabled(st, a)
    ensures WakersKept(SStep(how, st, a))
  {
  }

  lemma WakersReceiver(st: State, a: RAct)
    requires Control(st) && WakersKept(st) && REnabled(st, a)
    ensures WakersKept(RStep(st, a))
  {
    ReceiverFrame(st, a);
  }

  /** What receives have handed out, or are about to, is the message that was sent. */
  predicate ResultsTrue(st: State) {
    (forall i :: 0 <= i < |st.g.log| && st.g.log[i].Got? ==> DeliveredIs(st, st.g.log[i].m)) &&
    (AboutToReturn(st.r) ==> DeliveredIs(st, st.r.todo.out.value.m)) &&
    (st.g.fates != [] && st.g.fates[0].Received? ==>
      AboutToReturn(st.r) || exists i :: 0 <= i < |st.g.log| && st.g.log[i].Got?)
  }

  predicate AboutToReturn(r: RPc) {
    r.RTail? && r.todo.out.Some? && r.todo.out.value.Got?
  }

  predicate DeliveredIs(st: State, m: Message) {
    st.g.sent == Some(m) && st.g.fates == [Received(m)]
  }

  lemma ResultsSender(how: Arithmetic, st: State, a: SAct)
    requires Control(st) && MessageKept(st) && ResultsTrue(st) && SEnabled(st, a)
    ensures ResultsTrue(SStep(how, st, a))
  {
  }

  lemma LoadsDeliverNothing(st: State, a: RAct)
    requires REnabled(st, a) && !AboutToReturn(st.r) && !a.TakeMessage?
    requires a.Begin? || a.LoadAt?
    ensures var m := MoveOf(st, a); (m.out.Some? ==> !m.out.value.Got?) && !AboutToReturn(m.r) && RStep(st, a).r == m.r
  {
  }

  lemma SwapsDeliverNothing(st: State, a: RAct)
    requires REnabled(st, a) && !AboutToReturn(st.r) && !a.TakeMessage?
    requires a.Swap?
    ensures var m := MoveOf(st, a); (m.out.Some? ==> !m.out.value.Got?) && !AboutToReturn(m.r) && RStep(st, a).r == m.r
  {
  }

  lemma RestDeliversNothing(st: State, a: RAct)
    requires REnabled(st, a) && !AboutToReturn(st.r) && !a.TakeMessage?
    requires !a.Begin? && !a.LoadAt? && !a.Swap?
    ensures var m := MoveOf(st, a); (m.out.Some? ==> !m.out.value.Got?) && !AboutToReturn(m.r) && RStep(st, a).r == m.r
  {
  }

  /** Only the rest of a call that took the message hands it out. */
  lemma OnlyTailsDeliver(st: State, a: RAct)
    requires REnabled(st, a) && !AboutToReturn(st.r) && !a.TakeMessage?
    ensures var m := MoveOf(st, a); (m.out.Some? ==> !m.out.value.Got?) && !AboutToReturn(m.r) && RStep(st, a).r == m.r
  {
    if a.Begin? || a.LoadAt? {
      LoadsDeliverNothing(st, a);
    } else if a.Swap? {
      SwapsDeliverNothing(st, a);
    } else {
      RestDeliversNothing(st, a);
    }
  }

  // The three ways a receiver step can bear on the results, from what it changes alone.

  lemma ResultsReturn(st: State, a: RAct, st': State)
    requires ResultsTrue(st) && REnabled(st, a) && Framed(st, a, st') && AboutToReturn(st.r) && !st.r.todo.take && !st.r.todo.dropMsg
    ensures ResultsTrue(st')
  {
    assert forall i :: 0 <= i < |st.g.log| ==> st'.g.log[i] == st.g.log[i];
    assert |st'.g.log| == |st.g.log| + 1 ==> st'.g.log[|st.g.log|] == st.r.todo.out.value;
  }

  lemma ResultsTake(st: State, st': State)
    requires Control(st) && MessageKept(st) && ResultsTrue(st) && REnabled(st, TakeMessage) && Framed(st, TakeMessage, st')
    ensures ResultsTrue(st')
  {
    var m := st.c.msg.value;
    assert st'.g.log == st.g.log || st'.g.log == st.g.log + [Got(m)];
    assert forall i :: 0 <= i < |st.g.log| ==> st'.g.log[i] == st.g.log[i];
    assert |st'.g.log| == |st.g.log| + 1 ==> st'.g.log[|st.g.log|] == Got(m);
  }

  lemma ResultsOther(st: State, a: RAct, st': State)
    requires Control(st) && MessageKept(st) && ResultsTrue(st) && REnabled(st, a) && Framed(st, a, st')
    requires !AboutToReturn(st.r) && !a.TakeMessage? && !AboutToReturn(st'.r)
    requires MoveOf(st, a).out.Some? ==> !MoveOf(st, a).out.value.Got?
    ensures ResultsTrue(st')
  {
    assert forall i :: 0 <= i < |st.g.log| ==> st'.g.log[i] == st.g.log[i];
  }

  lemma ReturnIsDone(st: State)
    requires Control(st) && AboutToReturn(st.r)
    ensures !st.r.todo.take && !st.r.todo.dropMsg
  {
  }

  lemma ResultsReceiver(st: State, a: RAct)
    requires Control(st) && MessageKept(st) && ResultsTrue(st) && REnabled(st, a)
    ensures ResultsTrue(RStep(st, a))
  {
    ReceiverFrame(st, a);
    if a.TakeMessage? {
      ResultsTake(st, RStep(st, a));
    } else if AboutToReturn(st.r) {
      ReturnIsDone(st);
      ResultsReturn(st, a, RStep(st, a));
    } else {
      OnlyTailsDeliver(st, a);
      ResultsOther(st, a, RStep(st, a));
    }
  }
}
