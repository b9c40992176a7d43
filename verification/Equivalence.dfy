/**
 Consuming `recv` is `recv_ref` followed by dropping the `Receiver`: whatever the sender does
 and however the steps interleave, either can be matched by the other with the same results,
 the same disposal of message and wakers, and one free. `recv` leaves out the stores of
 DISCONNECTED and the drop's swap, `recv_ref` some fences.
 */
module Equivalence {
  import opened States
  import opened Memory
  import opened Protocol
  import opened Invariant
  import opened Wakeups
  import opened Reachable
  import opened Safety
  import opened Progress

  /** Everything the two runs share: the sender, the slots and the ledger but for the result
      that `recv_ref` returns before it is dropped. */
  predicate Same(a: State, b: State) {
    a.s == b.s && a.c.msg == b.c.msg && a.c.waker == b.c.waker && a.c.live == b.c.live &&
    a.g.sent == b.g.sent && a.g.fates == b.g.fates && a.g.sendOk == b.g.sendOk &&
    a.g.wakers == b.g.wakers && a.g.dropped == b.g.dropped && a.g.unparked == b.g.unparked &&
    a.g.wakes == b.g.wakes && a.g.slog == b.g.slog && a.g.tokens.Keys == b.g.tokens.Keys
  }

  /** The same bytes, read up to the same entry. */
  predicate SameByte(a: State, b: State) {
    |a.c.hist| == |b.c.hist| && a.rv.cur.pos == b.rv.cur.pos && a.sv.cur.pos == b.sv.cur.pos &&
    forall i :: 0 <= i < |a.c.hist| ==> a.c.hist[i].val == b.c.hist[i].val
  }

  /** `a` in recv and `b` in recv_ref, neither having read a final state. */
  predicate Early(a: State, b: State, t: nat) {
    SameByte(a, b) && a.g.log == b.g.log &&
    match a.r
    case RWrite(op) => op == Recv(t) && b.r == RWrite(RecvRef(t))
    case RArm(op) => op == Recv(t) && b.r == RArm(RecvRef(t))
    case RPark(op) => op == Recv(t) && b.r == RPark(RecvRef(t))
    case RCheck(op) => op == Recv(t) && b.r == RCheck(RecvRef(t))
    case _ => false
  }

  /** Both have read the sender's final state. */
  predicate Late(a: State, b: State, t: nat) {
    a.g.log == b.g.log && a.r.RTail? && b.r.RTail? && a.r.op == Recv(t) && b.r.op == RecvRef(t) &&
    !a.r.todo.store && a.r.todo.dropWaker == b.r.todo.dropWaker && a.r.todo.take == b.r.todo.take && a.r.todo.out == b.r.todo.out
  }

  const JustFree := Nothing.(free := true)

  /** recv_ref has returned and at most the drop is left; recv has nothing but its free left. */
  predicate Returned(a: State, b: State, t: nat) {
    a.r.RTail? && a.r.op == Recv(t) && !a.r.todo.dropWaker && !a.r.todo.store && !a.r.todo.take &&
    a.r.todo.out.Some? && b.g.log == a.g.log + [a.r.todo.out.value] &&
    (b.r == RIdle(false) || b.r == RTail(Drop(false), JustFree))
  }

  predicate Gone(a: State, b: State) {
    a.r.RDone? && b.r.RDone? && Left(a) && a.g.log == b.g.log &&
    |a.g.frees| == 1 && !a.g.frees[0].byDrop && |b.g.frees| == 1 && b.g.frees[0].byDrop
  }

  predicate Related(a: State, b: State, t: nat) {
    Same(a, b) && (Early(a, b, t) || Late(a, b, t) || Returned(a, b, t) || Gone(a, b))
  }

  /** Past the read of the final state, recv not yet gone. */
  predicate Tailing(a: State, b: State, t: nat) {
    Same(a, b) && (Late(a, b, t) || Returned(a, b, t))
  }

  // ------------------------------------------------------------------ single steps

  lemma BothWait(st: State, t: nat, i: nat)
    requires Tidy(st) && Control(st) && st.r == RIdle(false) && Readable(st, i)
    requires st.c.hist[i].val == EMPTY
    ensures Related(RStep(st, Begin(Recv(t), i)), RStep(st, Begin(RecvRef(t), i)), t)
  {
  }

  lemma BothFindMessage(st: State, t: nat, i: nat)
    requires Tidy(st) && Control(st) && st.r == RIdle(false) && Readable(st, i)
    requires st.c.hist[i].val != EMPTY
    requires st.c.hist[i].val == MESSAGE
    ensures Related(RStep(st, Begin(Recv(t), i)), RStep(st, Begin(RecvRef(t), i)), t)
  {
  }

  lemma BothFindClosed(st: State, t: nat, i: nat)
    requires Tidy(st) && Control(st) && st.r == RIdle(false) && Readable(st, i)
    requires st.c.hist[i].val != EMPTY
    requires st.c.hist[i].val != MESSAGE
    ensures Related(RStep(st, Begin(Recv(t), i)), RStep(st, Begin(RecvRef(t), i)), t)
  {
  }

  lemma BothFind(st: State, t: nat, i: nat)
    requires Tidy(st) && Control(st) && st.r == RIdle(false) && Readable(st, i)
    requires st.c.hist[i].val != EMPTY
    ensures Related(RStep(st, Begin(Recv(t), i)), RStep(st, Begin(RecvRef(t), i)), t)
  {
    if st.c.hist[i].val == MESSAGE {
      BothFindMessage(st, t, i);
    } else {
      BothFindClosed(st, t, i);
    }
  }

  lemma BothBegin(st: State, t: nat, i: nat)
    requires Tidy(st) && Control(st) && st.r == RIdle(false) && Readable(st, i)
    ensures Related(RStep(st, Begin(Recv(t), i)), RStep(st, Begin(RecvRef(t), i)), t)
  {
    if st.c.hist[i].val == EMPTY {
      BothWait(st, t, i);
    } else {
      BothFind(st, t, i);
    }
  }

  lemma BothUpdate(a: State, b: State, t: nat, v: Byte, sending: bool)
    requires Same(a, b) && Early(a, b, t) && a.c.hist != [] && b.c.hist != [] && Last(a.c.hist) == Last(b.c.hist)
    ensures Related(FirstUpdate(a, v, sending), FirstUpdate(b, v, sending), t)
  {
  }

  lemma BothFirst(a: State, b: State, t: nat, x: SAct)
    requires Same(a, b) && Early(a, b, t) && SEnabled(a, x) && SEnabled(b, x) && (x.FetchAdd? || x.FetchXor?)
    ensures Related(SStep(Fast, a, x), SStep(Fast, b, x), t)
  {
    assert Last(a.c.hist) == Last(b.c.hist);
    var v := if x.FetchAdd? then AfterSend(Fast, Last(a.c.hist)) else AfterDrop(Fast, Last(a.c.hist));
    BothUpdate(Tick(a, SenderSide), Tick(b, SenderSide), t, v, x.FetchAdd?);
  }

  lemma BothWrite(a: State, b: State, t: nat, x: SAct)
    requires Same(a, b) && Early(a, b, t) && SEnabled(a, x) && SEnabled(b, x) && !x.FetchAdd? && !x.FetchXor?
    requires x.SIsClosed? || x.WriteMessage?
    ensures Related(SStep(Fast, a, x), SStep(Fast, b, x), t)
  {
  }

  lemma BothTakeWaker(a: State, b: State, t: nat, x: SAct)
    requires Same(a, b) && Early(a, b, t) && SEnabled(a, x) && SEnabled(b, x) && !x.FetchAdd? && !x.FetchXor?
    requires x.TakeWaker?
    ensures Related(SStep(Fast, a, x), SStep(Fast, b, x), t)
  {
  }

  lemma BothFinal(a: State, b: State, t: nat, x: SAct)
    requires Same(a, b) && Early(a, b, t) && SEnabled(a, x) && SEnabled(b, x) && !x.FetchAdd? && !x.FetchXor?
    requires x.FinalSwap?
    ensures Related(SStep(Fast, a, x), SStep(Fast, b, x), t)
  {
  }

  lemma BothRest(a: State, b: State, t: nat, x: SAct)
    requires Same(a, b) && Early(a, b, t) && SEnabled(a, x) && SEnabled(b, x) && !x.FetchAdd? && !x.FetchXor?
    requires x.Unpark? || x.PeekError? || x.TakeError? || x.DropError? || x.SFree?
    ensures Related(SStep(Fast, a, x), SStep(Fast, b, x), t)
  {
  }

  lemma BothWaking(a: State, b: State, t: nat, x: SAct)
    requires Same(a, b) && Early(a, b, t) && SEnabled(a, x) && SEnabled(b, x) && !x.FetchAdd? && !x.FetchXor?
    ensures Related(SStep(Fast, a, x), SStep(Fast, b, x), t)
  {
    if x.SIsClosed? || x.WriteMessage? {
      BothWrite(a, b, t, x);
    } else if x.TakeWaker? {
      BothTakeWaker(a, b, t, x);
    } else if x.FinalSwap? {
      BothFinal(a, b, t, x);
    } else {
      BothRest(a, b, t, x);
    }
  }

  /** Once the final state has been read, all that is left to the sender is its unpark. */
  lemma OnlyUnpark(a: State, b: State, t: nat, x: SAct)
    requires Control(a) && Control(b) && Related(a, b, t) && !Early(a, b, t) && SEnabled(a, x)
    ensures x == Unpark
  {
  }

  lemma BothUnpark(a: State, b: State, t: nat)
    requires Related(a, b, t) && !Early(a, b, t) && SEnabled(a, Unpark) && SEnabled(b, Unpark)
    ensures Related(SStep(Fast, a, Unpark), SStep(Fast, b, Unpark), t)
  {
  }

  lemma SameEnabled(a: State, b: State, t: nat, x: SAct)
    requires Tidy(a) && Tidy(b) && Control(a) && Control(b) && Related(a, b, t) && (SEnabled(a, x) || SEnabled(b, x))
    ensures SEnabled(a, x) && SEnabled(b, x)
  {
  }

  lemma BothSender(a: State, b: State, t: nat, x: SAct)
    requires Tidy(a) && Control(a) && Tidy(b) && Control(b) && Related(a, b, t)
    requires SEnabled(a, x) || SEnabled(b, x)
    ensures SEnabled(a, x) && SEnabled(b, x) && Related(SStep(Fast, a, x), SStep(Fast, b, x), t)
  {
    SameEnabled(a, b, t, x);
    if !Early(a, b, t) {
      OnlyUnpark(a, b, t, x);
      BothUnpark(a, b, t);
    } else if x.FetchAdd? || x.FetchXor? {
      BothFirst(a, b, t, x);
    } else {
      BothWaking(a, b, t, x);
    }
  }

  lemma EarlyEnabled(a: State, b: State, t: nat, x: RAct)
    requires Safe(a) && WakeupsKept(a) && Safe(b) && WakeupsKept(b) && Same(a, b) && Early(a, b, t)
    requires REnabled(a, x) || REnabled(b, x)
    ensures REnabled(a, x) && REnabled(b, x) && (x.PutWaker? || x.Swap? || x.Wake? || x.LoadAt?)
  {
  }

  lemma BothSwap(a: State, b: State, t: nat)
    requires Tidy(a) && Control(a) && Tidy(b) && Control(b) && Same(a, b) && Early(a, b, t)
    requires REnabled(a, Swap) && REnabled(b, Swap)
    ensures Related(RStep(a, Swap), RStep(b, Swap), t)
  {
    assert Last(a.c.hist) == Last(b.c.hist);
  }

  lemma BothLoad(a: State, b: State, t: nat, i: nat)
    requires Tidy(a) && Control(a) && Tidy(b) && Control(b) && Same(a, b) && Early(a, b, t)
    requires REnabled(a, LoadAt(i)) && REnabled(b, LoadAt(i))
    ensures Related(RStep(a, LoadAt(i)), RStep(b, LoadAt(i)), t)
  {
    assert a.c.hist[i].val == b.c.hist[i].val;
  }

  lemma BothPut(a: State, b: State, t: nat)
    requires Tidy(a) && Control(a) && Tidy(b) && Control(b) && Same(a, b) && Early(a, b, t)
    requires REnabled(a, PutWaker) && REnabled(b, PutWaker)
    ensures Related(RStep(a, PutWaker), RStep(b, PutWaker), t)
  {
  }

  /** The token shows as much to both. */
  lemma SameToken(a: State, b: State, t: nat)
    requires Safe(a) && WakeupsKept(a) && Safe(b) && WakeupsKept(b) && Same(a, b) && Early(a, b, t)
    requires a.r.RPark? && t in a.g.tokens
    ensures t in b.g.tokens && a.g.tokens[t].pos == b.g.tokens[t].pos == |a.c.hist| - 1
  {
  }

  lemma BothWake(a: State, b: State, t: nat, spurious: bool)
    requires Tidy(a) && Control(a) && Tidy(b) && Control(b) && Same(a, b) && Early(a, b, t)
    requires REnabled(a, Wake(spurious)) && REnabled(b, Wake(spurious))
    requires spurious || (t in a.g.tokens && t in b.g.tokens && a.g.tokens[t].pos == b.g.tokens[t].pos)
    ensures Related(RStep(a, Wake(spurious)), RStep(b, Wake(spurious)), t)
  {
  }

  lemma BothUnparked(a: State, b: State, t: nat, spurious: bool)
    requires Safe(a) && WakeupsKept(a) && Safe(b) && WakeupsKept(b) && Same(a, b) && Early(a, b, t)
    requires REnabled(a, Wake(spurious)) && REnabled(b, Wake(spurious))
    ensures Related(RStep(a, Wake(spurious)), RStep(b, Wake(spurious)), t)
  {
    if !spurious {
      SameToken(a, b, t);
    }
    BothWake(a, b, t, spurious);
  }

  lemma BothEarly(a: State, b: State, t: nat, x: RAct)
    requires Safe(a) && WakeupsKept(a) && Safe(b) && WakeupsKept(b) && Same(a, b) && Early(a, b, t)
    requires REnabled(a, x) || REnabled(b, x)
    ensures REnabled(a, x) && REnabled(b, x) && Related(RStep(a, x), RStep(b, x), t)
  {
    EarlyEnabled(a, b, t, x);
    if x.Swap? {
      BothSwap(a, b, t);
    } else if x.LoadAt? {
      BothLoad(a, b, t, x.i);
    } else if x.PutWaker? {
      BothPut(a, b, t);
    } else {
      BothUnparked(a, b, t, x.spurious);
    }
  }

  lemma BothDiscard(a: State, b: State, t: nat)
    requires Control(a) && Control(b) && Same(a, b) && Late(a, b, t)
    requires REnabled(a, DiscardWaker) && REnabled(b, DiscardWaker)
    ensures Related(RStep(a, DiscardWaker), RStep(b, DiscardWaker), t)
  {
  }

  lemma BothTake(a: State, b: State, t: nat)
    requires Tidy(a) && Control(a) && Tidy(b) && Control(b) && Same(a, b) && Late(a, b, t)
    requires REnabled(a, TakeMessage) && REnabled(b, TakeMessage)
    ensures Related(RStep(a, TakeMessage), RStep(b, TakeMessage), t)
  {
  }

  lemma BothFree(a: State, b: State, t: nat)
    requires Tidy(a) && Control(a) && Tidy(b) && Control(b) && Same(a, b) && Returned(a, b, t)
    requires REnabled(a, FreeCell) && REnabled(b, FreeCell)
    ensures Related(RStep(a, FreeCell), RStep(b, FreeCell), t)
  {
  }

  lemma OneFence(a: State, b: State, t: nat)
    requires Tidy(a) && Control(a) && Related(a, b, t) && REnabled(a, Fence)
    ensures Related(RStep(a, Fence), b, t)
  {
  }

  /** How many steps of its own recv_ref, or the drop after it, may have left. */
  function Lag(r: RPc): nat {
    if r.RIdle? then 1 else if r.RTail? && !r.op.Drop? then 1 + Items(r.todo) else 0
  }

  lemma OtherMark(a: State, b: State, t: nat, x: RAct)
    requires Tidy(a) && Control(a) && Tidy(b) && Control(b) && Related(a, b, t) && REnabled(b, x)
    requires x.StoreByte? || x == Fence
    requires x.StoreByte?
    ensures Related(a, RStep(b, x), t) && Lag(RStep(b, x).r) < Lag(b.r)
  {
  }

  lemma OtherFence(a: State, b: State, t: nat, x: RAct)
    requires Tidy(a) && Control(a) && Tidy(b) && Control(b) && Related(a, b, t) && REnabled(b, x)
    requires x.StoreByte? || x == Fence
    requires x == Fence
    ensures Related(a, RStep(b, x), t) && Lag(RStep(b, x).r) < Lag(b.r)
  {
  }

  lemma OtherStore(a: State, b: State, t: nat, x: RAct)
    requires Tidy(a) && Control(a) && Tidy(b) && Control(b) && Related(a, b, t) && REnabled(b, x)
    requires x.StoreByte? || x == Fence
    ensures Related(a, RStep(b, x), t) && Lag(RStep(b, x).r) < Lag(b.r)
  {
    if x.StoreByte? {
      OtherMark(a, b, t, x);
    } else {
      OtherFence(a, b, t, x);
    }
  }

  lemma ReturnedIsClosed(a: State, b: State, t: nat)
    requires Control(a) && Control(b) && Same(a, b) && Returned(a, b, t)
    ensures b.r.RIdle? ==> Left(b) && Byte0(b) == DISCONNECTED
  {
  }

  lemma OtherDrop(a: State, b: State, t: nat)
    requires Tidy(a) && Control(a) && Tidy(b) && Control(b) && Same(a, b) && Returned(a, b, t) && b.r.RIdle?
    ensures REnabled(b, Swap) && Tailing(a, RStep(b, Swap), t) && Lag(RStep(b, Swap).r) < Lag(b.r)
  {
    ReturnedIsClosed(a, b, t);
  }

  lemma GoodSync(st: State, x: RAct)
    requires Good(st) && SyncPc(st.r) && REnabled(st, x) && !x.IntoFuture?
    ensures Good(RStep(st, x))
  {
    SyncStep(st, x);
    GoodReceiver(st, x);
  }

  /** `b` has no step left that `a` does not take. */
  predicate CaughtUp(b: State) {
    b.r.RTail? && Head(b.r.todo) != StoreByte && Head(b.r.todo) != Fence
  }

  /** The caller of recv_ref does nothing more with the receiver than drop it. */
  predicate JustDrops(l: Label) {
    l.S? || (!l.ra.Begin? && !l.ra.IntoFuture?)
  }

  predicate OnlyDrop(run: seq<Label>) {
    forall i :: 0 <= i < |run| ==> JustDrops(run[i])
  }

  lemma DropsConcat(run: seq<Label>, rest: seq<Label>)
    requires OnlyDrop(run) && OnlyDrop(rest)
    ensures OnlyDrop(run + rest)
  {
  }

  lemma DropsOne(l: Label)
    requires JustDrops(l)
    ensures OnlyDrop([l])
  {
  }

  lemma NoOtherCall(a: State, b: State, t: nat, l: Label)
    requires Related(a, b, t) && Enabled(a, l)
    ensures JustDrops(l)
  {
  }

  /** recv_ref, or the drop after it, can make step `x` alone. */
  ghost predicate MayCatchUp(a: State, b: State, t: nat, x: RAct) {
    REnabled(b, x) && JustDrops(R(x)) && Good(RStep(b, x)) && Tailing(a, RStep(b, x), t) && Lag(RStep(b, x).r) < Lag(b.r)
  }

  lemma CatchUpDrop(a: State, b: State, t: nat)
    requires Good(a) && Good(b) && Same(a, b) && Returned(a, b, t) && b.r.RIdle?
    ensures MayCatchUp(a, b, t, Swap)
  {
    OtherDrop(a, b, t);
    GoodSync(b, Swap);
  }

  lemma CatchUpStore(a: State, b: State, t: nat)
    requires Good(a) && Good(b) && Same(a, b) && Late(a, b, t) && !CaughtUp(b)
    ensures MayCatchUp(a, b, t, Head(b.r.todo))
  {
    var x := Head(b.r.todo);
    OtherStore(a, b, t, x);
    GoodSync(b, x);
  }

  lemma NotCaughtUp(a: State, b: State, t: nat)
    requires Tailing(a, b, t) && !CaughtUp(b)
    ensures if b.r.RIdle? then Returned(a, b, t) else Late(a, b, t)
  {
  }

  lemma CatchUpStep(a: State, b: State, t: nat) returns (x: RAct)
    requires Good(a) && Good(b) && Tailing(a, b, t) && !CaughtUp(b)
    ensures MayCatchUp(a, b, t, x)
  {
    NotCaughtUp(a, b, t);
    if b.r.RIdle? {
      x := Swap;
      CatchUpDrop(a, b, t);
    } else {
      x := Head(b.r.todo);
      CatchUpStore(a, b, t);
    }
  }

  /** recv_ref makes the steps that recv leaves out. */
  lemma {:induction false} CatchUp(a: State, b: State, t: nat) returns (run: seq<Label>)
    requires Good(a) && Good(b) && Tailing(a, b, t)
    ensures Runs(Fast, b, run) && OnlyDrop(run) && Good(After(Fast, b, run))
    ensures Tailing(a, After(Fast, b, run), t) && CaughtUp(After(Fast, b, run))
    decreases Lag(b.r)
  {
    run := [];
    if !CaughtUp(b) {
      var x := CatchUpStep(a, b, t);
      var rest := CatchUp(a, RStep(b, x), t);
      RunCons(Fast, b, R(x), rest);
      DropsOne(R(x));
      DropsConcat([R(x)], rest);
      run := [R(x)] + rest;
    }
  }

  /** Both are before step `x` of a call's rest. */
  predicate Shared(a: State, b: State, t: nat, x: RAct) {
    REnabled(a, x) && REnabled(b, x) && SyncPc(a.r) && SyncPc(b.r) && Same(a, b) &&
    if x.FreeCell? then Returned(a, b, t) else Late(a, b, t) && (x.DiscardWaker? || x.TakeMessage?)
  }

  lemma BothShared(a: State, b: State, t: nat, x: RAct)
    requires Tidy(a) && Control(a) && Tidy(b) && Control(b) && Shared(a, b, t, x)
    ensures Related(RStep(a, x), RStep(b, x), t)
  {
    if x.FreeCell? {
      BothFree(a, b, t);
    } else if x.TakeMessage? {
      BothTake(a, b, t);
    } else {
      BothDiscard(a, b, t);
    }
  }

  /** Once recv_ref has caught up, both are before the same step. */
  lemma CaughtUpShares(a: State, b: State, t: nat, x: RAct)
    requires Control(a) && Control(b) && Tailing(a, b, t) && CaughtUp(b) && REnabled(a, x) && x != Fence
    ensures Shared(a, b, t, x)
  {
  }

  lemma RelatedSync(a: State, b: State, t: nat)
    requires Related(a, b, t)
    ensures SyncPc(a.r) && SyncPc(b.r)
  {
  }

  lemma NotGone(a: State, b: State, t: nat, x: RAct)
    requires Related(a, b, t) && !Early(a, b, t) && (REnabled(a, x) || REnabled(b, x))
    ensures Tailing(a, b, t)
  {
  }

  /** recv_ref can match a step of recv by making the same one. */
  predicate Matches(a: State, b: State, t: nat, l: Label)
  {
    Enabled(a, l) && Enabled(b, l) && Related(Step(Fast, a, l), Step(Fast, b, l), t)
  }

  lemma MatchEarly(a: State, b: State, t: nat, l: Label)
    requires Good(a) && Good(b) && Related(a, b, t) && (Enabled(a, l) || Enabled(b, l)) && (l.S? || Early(a, b, t))
    ensures Matches(a, b, t, l)
  {
    match l {
      case S(x) => BothSender(a, b, t, x);
      case R(x) => BothEarly(a, b, t, x);
    }
  }

  lemma GoodMatch(st: State, l: Label)
    requires Good(st) && Enabled(st, l) && SyncPc(st.r) && l != R(IntoFuture)
    ensures Good(Step(Fast, st, l))
  {
    match l {
      case S(x) => GoodSender(Fast, st, x);
      case R(x) => GoodSync(st, x);
    }
  }

  lemma FollowTail(a: State, b: State, t: nat, x: RAct) returns (run: seq<Label>)
    requires Good(a) && Good(b) && Tailing(a, b, t)
    requires REnabled(a, x) && x != Fence
    ensures Runs(Fast, b, run) && OnlyDrop(run) && Good(After(Fast, b, run)) && Related(RStep(a, x), After(Fast, b, run), t)
  {
    run := CatchUp(a, b, t);
    var b' := After(Fast, b, run);
    CaughtUpShares(a, b', t, x);
    BothShared(a, b', t, x);
    GoodSync(b', x);
    RunSnoc(Fast, b, run, R(x));
    DropsOne(R(x));
    DropsConcat(run, [R(x)]);
    run := run + [R(x)];
  }

  lemma OneStep(st: State, l: Label) returns (run: seq<Label>)
    requires Good(st) && Enabled(st, l) && SyncPc(st.r) && l != R(IntoFuture)
    ensures run == [l] && Runs(Fast, st, run) && After(Fast, st, run) == Step(Fast, st, l) && Good(Step(Fast, st, l))
  {
    GoodMatch(st, l);
    RunCons(Fast, st, l, []);
    run := [l] + [];
  }

  /** Every step of recv is matched by recv_ref and the drop. */
  lemma FollowStep(a: State, b: State, t: nat, l: Label) returns (run: seq<Label>)
    requires Good(a) && Good(b) && Related(a, b, t) && Enabled(a, l)
    ensures Runs(Fast, b, run) && Good(After(Fast, b, run)) && Related(Step(Fast, a, l), After(Fast, b, run), t)
    ensures OnlyDrop(run)
  {
    NoOtherCall(a, b, t, l);
    if l.S? || Early(a, b, t) {
      MatchEarly(a, b, t, l);
      RelatedSync(a, b, t);
      DropsOne(l);
      run := OneStep(b, l);
    } else if l.ra == Fence {
      OneFence(a, b, t);
      run := [];
    } else {
      NotGone(a, b, t, l.ra);
      run := FollowTail(a, b, t, l.ra);
    }
  }

  lemma {:induction false} FollowRun(a: State, b: State, t: nat, run: seq<Label>) returns (run': seq<Label>)
    requires Good(a) && Good(b) && Related(a, b, t) && Runs(Fast, a, run)
    ensures Runs(Fast, b, run') && Related(After(Fast, a, run), After(Fast, b, run'), t)
    ensures Good(After(Fast, a, run)) && Good(After(Fast, b, run')) && OnlyDrop(run')
    decreases |run|
  {
    run' := [];
    if run != [] {
      run' := FollowStep(a, b, t, run[0]);
      GoodMatch(a, run[0]);
      var rest := FollowRun(Step(Fast, a, run[0]), After(Fast, b, run'), t, run[1..]);
      RunConcat(Fast, b, run', rest);
      DropsConcat(run', rest);
      run' := run' + rest;
    }
  }

  // ------------------------------------------------------ and the other way round

  /** recv makes its fence. */
  lemma FenceUp(a: State, b: State, t: nat) returns (run: seq<Label>)
    requires Good(a) && Tailing(a, b, t) && !a.r.todo.dropWaker
    ensures Runs(Fast, a, run) && Good(After(Fast, a, run)) && Tailing(After(Fast, a, run), b, t)
    ensures Head(After(Fast, a, run).r.todo) != Fence && !After(Fast, a, run).r.todo.dropWaker
  {
    run := [];
    if a.r.todo.fence {
      FenceOne(a, b, t);
      GoodSync(a, Fence);
      RunCons(Fast, a, R(Fence), []);
      run := [R(Fence)] + [];
    }
  }

  lemma FenceOne(a: State, b: State, t: nat)
    requires Tidy(a) && Control(a) && Tailing(a, b, t) && !a.r.todo.dropWaker && a.r.todo.fence
    ensures REnabled(a, Fence) && SyncPc(a.r) && Tailing(RStep(a, Fence), b, t)
    ensures Head(RStep(a, Fence).r.todo) != Fence && !RStep(a, Fence).r.todo.dropWaker
  {
    OneFence(a, b, t);
  }

  /** Once recv has made its fence, both are before the same step. */
  lemma FencedShares(a: State, b: State, t: nat, x: RAct)
    requires Control(a) && Control(b) && Tailing(a, b, t) && REnabled(b, x)
    requires x.DiscardWaker? || ((x.TakeMessage? || x.FreeCell?) && Head(a.r.todo) != Fence && !a.r.todo.dropWaker)
    ensures Shared(a, b, t, x)
  {
  }

  lemma LeadTail(a: State, b: State, t: nat, x: RAct) returns (run: seq<Label>)
    requires Good(a) && Good(b) && Tailing(a, b, t)
    requires REnabled(b, x) && (x.TakeMessage? || x.FreeCell?)
    ensures Runs(Fast, a, run) && Good(After(Fast, a, run)) && Related(After(Fast, a, run), RStep(b, x), t)
  {
    run := FenceUp(a, b, t);
    var a' := After(Fast, a, run);
    FencedShares(a', b, t, x);
    BothShared(a', b, t, x);
    GoodSync(a', x);
    RunSnoc(Fast, a, run, R(x));
    run := run + [R(x)];
  }

  /** A step recv_ref or the drop makes alone, because recv leaves it out. */
  predicate Alone(x: RAct) {
    x.StoreByte? || x == Fence || x.Swap?
  }

  lemma OnlyIdleSwaps(a: State, b: State, t: nat)
    requires Tailing(a, b, t) && REnabled(b, Swap)
    ensures b.r.RIdle? && Returned(a, b, t)
  {
  }

  lemma LeadAlone(a: State, b: State, t: nat, x: RAct)
    requires Good(a) && Good(b) && Tailing(a, b, t) && REnabled(b, x) && Alone(x)
    ensures Related(a, RStep(b, x), t)
  {
    if x.Swap? {
      OnlyIdleSwaps(a, b, t);
      OtherDrop(a, b, t);
    } else {
      OtherStore(a, b, t, x);
    }
  }

  lemma LeadDiscard(a: State, b: State, t: nat) returns (run: seq<Label>)
    requires Good(a) && Good(b) && Tailing(a, b, t) && REnabled(b, DiscardWaker)
    ensures Runs(Fast, a, run) && Good(After(Fast, a, run)) && Related(After(Fast, a, run), RStep(b, DiscardWaker), t)
  {
    FencedShares(a, b, t, DiscardWaker);
    BothShared(a, b, t, DiscardWaker);
    run := OneStep(a, R(DiscardWaker));
  }

  /** A receiver step outside the common beginning. */
  lemma LeadReceiver(a: State, b: State, t: nat, x: RAct) returns (run: seq<Label>)
    requires Good(a) && Good(b) && Related(a, b, t) && REnabled(b, x) && JustDrops(R(x)) && !Early(a, b, t)
    ensures Runs(Fast, a, run) && Good(After(Fast, a, run)) && Related(After(Fast, a, run), RStep(b, x), t)
  {
    NotGone(a, b, t, x);
    if Alone(x) {
      LeadAlone(a, b, t, x);
      run := [];
    } else if x.DiscardWaker? {
      run := LeadDiscard(a, b, t);
    } else {
      run := LeadTail(a, b, t, x);
    }
  }

  /** Every step of recv_ref and of the drop is matched by recv. */
  lemma LeadStep(a: State, b: State, t: nat, l: Label) returns (run: seq<Label>)
    requires Good(a) && Good(b) && Related(a, b, t) && Enabled(b, l) && JustDrops(l)
    ensures Runs(Fast, a, run) && Good(After(Fast, a, run)) && Related(After(Fast, a, run), Step(Fast, b, l), t)
    ensures Good(Step(Fast, b, l))
  {
    RelatedSync(a, b, t);
    GoodMatch(b, l);
    if l.S? || Early(a, b, t) {
      MatchEarly(a, b, t, l);
      run := OneStep(a, l);
    } else {
      run := LeadReceiver(a, b, t, l.ra);
    }
  }

  lemma {:induction false} LeadRun(a: State, b: State, t: nat, run: seq<Label>) returns (run': seq<Label>)
    requires Good(a) && Good(b) && Related(a, b, t) && Runs(Fast, b, run) && OnlyDrop(run)
    ensures Runs(Fast, a, run') && Related(After(Fast, a, run'), After(Fast, b, run), t)
    ensures Good(After(Fast, a, run')) && Good(After(Fast, b, run))
    decreases |run|
  {
    run' := [];
    if run != [] {
      assert JustDrops(run[0]) && OnlyDrop(run[1..]);
      run' := LeadStep(a, b, t, run[0]);
      var rest := LeadRun(After(Fast, a, run'), Step(Fast, b, run[0]), t, run[1..]);
      RunConcat(Fast, a, run', rest);
      run' := run' + rest;
    }
  }

  /** What a caller can tell apart. */
  predicate Indistinguishable(a: State, b: State) {
    a.r.RDone? && b.r.RDone? && a.g.log == b.g.log && a.g.fates == b.g.fates && a.g.sendOk == b.g.sendOk &&
    a.g.dropped == b.g.dropped && a.g.unparked == b.g.unparked && a.g.wakes == b.g.wakes && a.s == b.s &&
    a.g.sent == b.g.sent && a.g.slog == b.g.slog &&
    !a.c.live && !b.c.live && a.g.faults == {} && b.g.faults == {}
  }

  /** recv's free is always ordered after the sender's accesses; the drop's free is so unless
      wait_for_unpark took the message without having been unparked, in an earlier call. */
  predicate FreesCompare(a: State, b: State) {
    |a.g.frees| == 1 && |b.g.frees| == 1 && a.g.frees[0].party.ReceiverSide? && b.g.frees[0].party.ReceiverSide? &&
    a.g.frees[0].ordered && (b.g.frees[0].ordered <==> !b.g.lax)
  }

  lemma SameInTheEnd(a: State, b: State, t: nat)
    requires Good(a) && Good(b) && Related(a, b, t) && (a.r.RDone? || b.r.RDone?)
    ensures Indistinguishable(a, b) && FreesCompare(a, b)
  {
  }

  lemma BothStart(before: seq<Label>, t: nat, i: nat)
    requires Runs(Fast, Init, before) && !After(Fast, Init, before).g.broken
    requires After(Fast, Init, before).r == RIdle(false) && After(Fast, Init, before).c.hist != []
    requires Readable(After(Fast, Init, before), i)
    ensures var st := After(Fast, Init, before);
      var a, b := RStep(st, Begin(Recv(t), i)), RStep(st, Begin(RecvRef(t), i));
      Good(a) && Good(b) && Related(a, b, t)
  {
    var st := After(Fast, Init, before);
    GoodInit();
    GoodRun(Fast, Init, before);
    BothBegin(st, t, i);
    GoodSync(st, Begin(Recv(t), i));
    GoodSync(st, Begin(RecvRef(t), i));
  }

  /** From any reachable state with an idle `Receiver`: every finished recv can be matched by
      a recv_ref and a drop, with no other call. */
  lemma RecvByRecvRef(before: seq<Label>, t: nat, i: nat, run: seq<Label>) returns (run': seq<Label>)
    requires Runs(Fast, Init, before) && !After(Fast, Init, before).g.broken
    requires After(Fast, Init, before).r == RIdle(false) && After(Fast, Init, before).c.hist != []
    requires Readable(After(Fast, Init, before), i)
    requires Runs(Fast, RStep(After(Fast, Init, before), Begin(Recv(t), i)), run)
    requires After(Fast, RStep(After(Fast, Init, before), Begin(Recv(t), i)), run).r.RDone?
    ensures var st := After(Fast, Init, before);
      var a, b := RStep(st, Begin(Recv(t), i)), RStep(st, Begin(RecvRef(t), i));
      Runs(Fast, b, run') && OnlyDrop(run') &&
      Indistinguishable(After(Fast, a, run), After(Fast, b, run')) && FreesCompare(After(Fast, a, run), After(Fast, b, run'))
  {
    BothStart(before, t, i);
    var st := After(Fast, Init, before);
    var a, b := RStep(st, Begin(Recv(t), i)), RStep(st, Begin(RecvRef(t), i));
    run' := FollowRun(a, b, t, run);
    SameInTheEnd(After(Fast, a, run), After(Fast, b, run'), t);
  }

  /** And every recv_ref followed by a drop can be matched by a recv. */
  lemma RecvRefByRecv(before: seq<Label>, t: nat, i: nat, run: seq<Label>) returns (run': seq<Label>)
    requires Runs(Fast, Init, before) && !After(Fast, Init, before).g.broken
    requires After(Fast, Init, before).r == RIdle(false) && After(Fast, Init, before).c.hist != []
    requires Readable(After(Fast, Init, before), i) && OnlyDrop(run)
    requires Runs(Fast, RStep(After(Fast, Init, before), Begin(RecvRef(t), i)), run)
    requires After(Fast, RStep(After(Fast, Init, before), Begin(RecvRef(t), i)), run).r.RDone?
    ensures var st := After(Fast, Init, before);
      var a, b := RStep(st, Begin(Recv(t), i)), RStep(st, Begin(RecvRef(t), i));
      Runs(Fast, a, run') &&
      Indistinguishable(After(Fast, a, run'), After(Fast, b, run)) && FreesCompare(After(Fast, a, run'), After(Fast, b, run))
  {
    BothStart(before, t, i);
    var st := After(Fast, Init, before);
    var a, b := RStep(st, Begin(Recv(t), i)), RStep(st, Begin(RecvRef(t), i));
    run' := LeadRun(a, b, t, run);
    SameInTheEnd(After(Fast, a, run'), After(Fast, b, run), t);
  }
}
