/**
 What no run of the protocol can do, and what every completed run has done. Loads may be
 stale throughout. The hypothesis `!st.g.broken` says that no async drop's swap returned
 UNPARKING; runs of a plain `Receiver` always satisfy it.
 */
module Safety {
  import opened States
  import opened Memory
  import opened Protocol
  import opened Invariant
  import opened LedgerInvariant
  import opened Reachable

  /** Both endpoints, and a `SendError` if there was one, are gone. */
  predicate Completed(st: State) {
    (st.s.SFinished? || st.s.SReleased?) && st.r.RDone?
  }

  /** No use after free, double free, uninitialised or overwritten slot, data race on a
      slot, or unreachable!() arm. */
  lemma NoFault(how: Arithmetic, run: seq<Label>)
    requires Runs(how, Init, run) && !After(how, Init, run).g.broken
    ensures After(how, Init, run).g.faults == {}
  {
    GoodInit();
    GoodRun(how, Init, run);
  }

  // -------------------------------------------------------------- plain receivers

  /** Program counters a `Receiver` that is never turned into a future can reach. */
  predicate SyncPc(r: RPc) {
    match r
    case RIdle(async) => !async
    case RWrite(op) => !OpAsync(op)
    case RArm(op) => !OpAsync(op)
    case RPark(op) => !OpAsync(op)
    case RCheck(op) => !OpAsync(op)
    case RWaitPark(op, _) => !OpAsync(op)
    case RWaitCheck(op, _) => !OpAsync(op)
    case RTail(op, _) => !OpAsync(op)
    case RDone => true
    case RPanic => true
    case _ => false
  }

  lemma SyncMove(st: State, a: RAct)
    requires REnabled(st, a) && !a.IntoFuture? && SyncPc(st.r)
    ensures SyncPc(MoveOf(st, a).r) && !MoveOf(st, a).broken
  {
  }

  lemma SyncStep(st: State, a: RAct)
    requires REnabled(st, a) && !a.IntoFuture? && SyncPc(st.r) && !st.g.broken
    ensures SyncPc(RStep(st, a).r) && !RStep(st, a).g.broken
  {
    SyncMove(st, a);
  }

  lemma {:induction false} SyncRun(how: Arithmetic, st: State, run: seq<Label>)
    requires Runs(how, st, run) && R(IntoFuture) !in run && SyncPc(st.r) && !st.g.broken
    ensures !After(how, st, run).g.broken
    decreases |run|
  {
    if run != [] {
      if run[0].R? {
        SyncStep(st, run[0].ra);
      }
      SyncRun(how, Step(how, st, run[0]), run[1..]);
    }
  }

  /** Runs of a plain `Receiver` need no hypothesis. */
  lemma SyncNoFault(how: Arithmetic, run: seq<Label>)
    requires Runs(how, Init, run) && R(IntoFuture) !in run
    ensures !After(how, Init, run).g.broken && After(how, Init, run).g.faults == {}
  {
    SyncRun(how, Init, run);
    NoFault(how, run);
  }

  // --------------------------------------------------- the UNPARKING arm of the async drop

  /** A receiver whose drop has made its swap over anything but UNPARKING. */
  predicate Leaving(st: State) {
    !st.g.broken && (st.r.RDone? || (st.r.RTail? && st.r.op.Drop?))
  }

  lemma LeavingReceiver(st: State, a: RAct)
    requires Leaving(st) && REnabled(st, a)
    ensures Leaving(RStep(st, a))
  {
    ReceiverFrame(st, a);
  }

  lemma LeavingSender(how: Arithmetic, st: State, a: SAct)
    requires Leaving(st) && SEnabled(st, a)
    ensures Leaving(SStep(how, st, a))
  {
  }

  lemma LeavingStep(how: Arithmetic, st: State, l: Label)
    requires Leaving(st) && Enabled(st, l)
    ensures Leaving(Step(how, st, l))
  {
    match l {
      case S(a) => LeavingSender(how, st, a);
      case R(a) => LeavingReceiver(st, a);
    }
  }

  lemma {:induction false} LeavingRun(how: Arithmetic, st: State, run: seq<Label>)
    requires Good(st) && Leaving(st) && Runs(how, st, run)
    ensures After(how, st, run).g.faults == {}
    decreases |run|
  {
    if run != [] {
      LeavingStep(how, st, run[0]);
      GoodStep(how, st, run[0]);
      LeavingRun(how, Step(how, st, run[0]), run[1..]);
    }
  }

  /** The rest of the drop after a swap over UNPARKING. */
  function DropOn(st: State): seq<Label>
    requires st.c.hist != []
  {
    [R(LoadAt(|st.c.hist| - 1))] + [R(Fence), R(FreeCell)]
  }

  const FenceFree := Nothing.(fence := true, free := true)

  /** The loop ends on the receiver's own DISCONNECTED. */
  lemma SpinEnds(st: State)
    requires Tidy(st) && st.r.RDropSpin? && Last(st.c.hist) == DISCONNECTED
    ensures var a := LoadAt(|st.c.hist| - 1);
      REnabled(st, a) && RStep(st, a).r == RTail(Drop(true), FenceFree) && RStep(st, a).s == st.s && RStep(st, a).c.hist == st.c.hist
  {
  }

  lemma FencesThenFrees(how: Arithmetic, st: State)
    requires st.r == RTail(Drop(true), FenceFree) && st.c.hist != []
    ensures Runs(how, st, [R(Fence), R(FreeCell)])
    ensures var st' := After(how, st, [R(Fence), R(FreeCell)]); !st'.c.live && st'.s == st.s && st'.c.hist == st.c.hist
  {
    RunCons(how, Step(how, st, R(Fence)), R(FreeCell), []);
    RunCons(how, st, R(Fence), [R(FreeCell)]);
  }

  lemma DropOnFrees(how: Arithmetic, st: State)
    requires Tidy(st) && st.r.RDropSpin? && Last(st.c.hist) == DISCONNECTED
    ensures Runs(how, st, DropOn(st))
    ensures var st' := After(how, st, DropOn(st)); !st'.c.live && st'.s == st.s && st'.c.hist == st.c.hist
  {
    SpinEnds(st);
    var load := R(LoadAt(|st.c.hist| - 1));
    FencesThenFrees(how, Step(how, st, load));
    RunCons(how, st, load, [R(Fence), R(FreeCell)]);
  }

  /** The same followed by the sender's next step. */
  function Overtake(st: State): seq<Label>
    requires st.c.hist != []
  {
    DropOn(st) + [S(if st.s.STakeWaker? then TakeWaker else FinalSwap)]
  }

  lemma OvertakeFrees(how: Arithmetic, st: State)
    requires Waking(st)
    requires Tidy(st) && st.r.RDropSpin? && Last(st.c.hist) == DISCONNECTED
    ensures Runs(how, st, Overtake(st)) && UseAfterFree in After(how, st, Overtake(st)).g.faults
  {
    DropOnFrees(how, st);
    RunSnoc(how, st, DropOn(st), S(if st.s.STakeWaker? then TakeWaker else FinalSwap));
  }

  lemma DropUnsafe(how: Arithmetic, st: State)
    requires Good(st) && st.r.RDropSwap? && Last(st.c.hist) == UNPARKING
    ensures exists rest :: Runs(how, RStep(st, Swap), rest) && UseAfterFree in After(how, RStep(st, Swap), rest).g.faults
  {
    TidyReceiver(st, Swap);
    var st' := RStep(st, Swap);
    OvertakeFrees(how, st');
    assert UseAfterFree in After(how, st', Overtake(st')).g.faults;
  }

  lemma DropSafe(how: Arithmetic, st: State)
    requires Good(st) && st.r.RDropSwap? && Last(st.c.hist) != UNPARKING
    ensures forall rest :: Runs(how, RStep(st, Swap), rest) ==> After(how, RStep(st, Swap), rest).g.faults == {}
  {
    GoodReceiver(st, Swap);
    forall rest | Runs(how, RStep(st, Swap), rest)
      ensures After(how, RStep(st, Swap), rest).g.faults == {}
    {
      LeavingRun(how, RStep(st, Swap), rest);
    }
  }

  /** In any run so far unbroken, once the async drop reaches its swap: every continuation is
      free of faults if and only if the byte it swaps out is not UNPARKING. */
  lemma DropSafeExactly(how: Arithmetic, run: seq<Label>)
    requires Runs(how, Init, run)
    requires !After(how, Init, run).g.broken && After(how, Init, run).r.RDropSwap?
    ensures var st := After(how, Init, run);
      st.c.hist != [] &&
      ((forall rest :: Runs(how, RStep(st, Swap), rest) ==> After(how, RStep(st, Swap), rest).g.faults == {})
       <==> Last(st.c.hist) != UNPARKING)
  {
    var st := After(how, Init, run);
    GoodInit();
    GoodRun(how, Init, run);
    if Last(st.c.hist) == UNPARKING {
      DropUnsafe(how, st);
    } else {
      DropSafe(how, st);
    }
  }

  // ------------------------------------------------------------------- conservation

  /** A message given to send is in the slot or has met exactly one fate; once the run is
      complete it has met one, and send said Ok exactly if that fate was the receiver's. */
  predicate MessageAccounted(st: State) {
    |st.g.fates| + (if st.c.msg.Some? then 1 else 0) == (if st.g.sent.Some? then 1 else 0) &&
    (forall i :: 0 <= i < |st.g.fates| ==> Some(st.g.fates[i].m) == st.g.sent) &&
    (st.c.msg.Some? ==> st.c.msg == st.g.sent) &&
    (Completed(st) && st.g.sent.Some? ==>
      |st.g.fates| == 1 && st.g.sendOk == Some(st.g.fates[0].Received? || st.g.fates[0].DroppedByReceiver?)) &&
    (Completed(st) && st.g.sent.None? ==> st.g.sendOk.None?)
  }

  lemma KeptIsAccounted(st: State)
    requires Control(st) && MessageKept(st)
    ensures MessageAccounted(st)
  {
  }

  /** At every point of every run. */
  lemma MessageConserved(how: Arithmetic, run: seq<Label>)
    requires Runs(how, Init, run) && !After(how, Init, run).g.broken
    ensures MessageAccounted(After(how, Init, run))
  {
    GoodInit();
    GoodRun(how, Init, run);
    KeptIsAccounted(After(how, Init, run));
  }

  /** Every waker instance written to the slot ends dropped in place once or consumed by
      unpark once; at any time at most one is stored. */
  lemma WakersConserved(how: Arithmetic, run: seq<Label>)
    requires Runs(how, Init, run) && !After(how, Init, run).g.broken
    ensures var st := After(how, Init, run);
      forall i: nat :: i < |st.g.wakers| ==>
        st.g.dropped[i] + st.g.unparked[i] <= 1 &&
        (st.g.dropped[i] + st.g.unparked[i] == 0 <==> st.c.waker == Some(i) || SenderHolds(st.s) == Some(i)) &&
        (Completed(st) ==> st.g.dropped[i] + st.g.unparked[i] == 1)
  {
    GoodInit();
    GoodRun(how, Init, run);
    var st := After(how, Init, run);
    forall i: nat | i < |st.g.wakers|
      ensures st.g.dropped[i] + st.g.unparked[i] <= 1
      ensures st.g.dropped[i] + st.g.unparked[i] == 0 <==> st.c.waker == Some(i) || SenderHolds(st.s) == Some(i)
      ensures Completed(st) ==> st.g.dropped[i] + st.g.unparked[i] == 1
    {
      assert Count(st.c.waker, i) <= 1 && Count(SenderHolds(st.s), i) <= 1;
    }
  }

  /** The channel is freed at most once, and exactly once in a completed run: by the receiver
      if the sender left it the channel, else by the sender side. */
  lemma ReleasedOnce(how: Arithmetic, run: seq<Label>)
    requires Runs(how, Init, run) && !After(how, Init, run).g.broken
    ensures var st := After(how, Init, run);
      |st.g.frees| <= 1 && (st.c.live <==> st.g.frees == []) &&
      (Completed(st) ==> |st.g.frees| == 1 && (st.g.frees[0].party.ReceiverSide? <==> st.s.SFinished?)) &&
      (forall i :: 0 <= i < |st.g.frees| ==>
        (st.g.frees[i].ordered <==> !(st.g.lax && st.g.frees[i].party.ReceiverSide? && st.g.frees[i].byDrop)))
  {
    GoodInit();
    GoodRun(how, Init, run);
  }
}
