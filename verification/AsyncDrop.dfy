/**
 That the swap of `Drop for AsyncReceiver` can meet UNPARKING, on a concrete run: a poll is left
 pending, the receiver's drop begins, and the sender is dropped between the drop's load and its
 compare_exchange. `Safety.DropSafeExactly` says what follows from there.
 */
module AsyncDrop {
  import opened States
  import opened Memory
  import opened Protocol
  import opened Invariant
  import opened LedgerInvariant
  import opened Effects
  import opened Reachable
  import opened Safety

  // The run, stretch by stretch.

  /** A poll of task `k` has begun. */
  function Begun(k: nat): State {
    Init.(c := Init.c.(cellAcc := Access(0, 2)), r := RWrite(Poll(k)), rv := Local(View(0, 2, 0), Bottom))
  }

  lemma ReachesBegun(k: nat) returns (run: seq<Label>)
    ensures Runs(Fast, Init, run) && After(Fast, Init, run) == Begun(k)
  {
    RunSnoc(Fast, Init, [], R(IntoFuture));
    run := [] + [R(IntoFuture)];
    RunSnoc(Fast, Init, run, R(Begin(Poll(k), 0)));
    run := run + [R(Begin(Poll(k), 0))];
  }

  /** Its waker is written. */
  function Written(k: nat): State {
    Begun(k).(
      c := Init.c.(waker := Some(0), wakAcc := Access(0, 3), cellAcc := Access(0, 3)),
      r := RArm(Poll(k)), rv := Local(View(0, 3, 0), Bottom), g := Init.g.(wakers := [Task(k)]))
  }

  lemma ReachesWritten(k: nat) returns (run: seq<Label>)
    ensures Runs(Fast, Init, run) && After(Fast, Init, run) == Written(k)
  {
    run := ReachesBegun(k);
    RunSnoc(Fast, Init, run, R(PutWaker));
    run := run + [R(PutWaker)];
  }

  /** It was left pending. */
  function Pended(k: nat): State {
    Written(k).(
      c := Written(k).c.(hist := [Write(EMPTY, Bottom), Write(RECEIVING, View(0, 4, 1))], cellAcc := Access(0, 4)),
      r := RIdle(true), rv := Local(View(0, 4, 1), Bottom),
      g := Written(k).g.(log := [Pending], polled := Some(k)))
  }

  lemma ReachesPended(k: nat) returns (run: seq<Label>)
    ensures Runs(Fast, Init, run) && After(Fast, Init, run) == Pended(k)
  {
    run := ReachesWritten(k);
    RunSnoc(Fast, Init, run, R(Swap));
    run := run + [R(Swap)];
  }

  /** The drop has loaded RECEIVING. */
  function Dropping(k: nat): State {
    Pended(k).(
      c := Pended(k).c.(cellAcc := Access(0, 5)), r := RDropCas, rv := Local(View(0, 5, 1), View(0, 4, 1)))
  }

  lemma ReachesDropping(k: nat) returns (run: seq<Label>)
    ensures Runs(Fast, Init, run) && After(Fast, Init, run) == Dropping(k)
  {
    run := ReachesPended(k);
    RunSnoc(Fast, Init, run, R(Begin(Drop(true), 1)));
    run := run + [R(Begin(Drop(true), 1))];
  }

  /** The sender is about to take the waker. */
  function Racing(k: nat): State {
    Dropping(k).(
      c := Dropping(k).c.(hist := Pended(k).c.hist + [Write(UNPARKING, View(1, 4, 2))], cellAcc := Access(1, 5)),
      s := STakeWaker(false), sv := Local(View(1, 4, 2), View(0, 4, 1)))
  }

  lemma ReachesRacing(k: nat) returns (run: seq<Label>)
    ensures Runs(Fast, Init, run) && After(Fast, Init, run) == Racing(k)
  {
    run := ReachesDropping(k);
    RunSnoc(Fast, Init, run, S(FetchXor));
    run := run + [S(FetchXor)];
  }

  /** The hypothesis of the async theorems can fail: a run, unbroken so far, comes to the drop's
      swap with UNPARKING as the byte to be replaced. */
  lemma DropMeetsUnparking(k: nat) returns (run: seq<Label>)
    ensures Runs(Fast, Init, run) && !After(Fast, Init, run).g.broken
    ensures var st := After(Fast, Init, run);
      st.r.RDropSwap? && st.c.hist != [] && Last(st.c.hist) == UNPARKING && Waking(st)
  {
    run := ReachesRacing(k);
    RunSnoc(Fast, Init, run, R(LoadAt(2)));
    run := run + [R(LoadAt(2))];
  }

  lemma SwapsOver(st: State)
    requires Tidy(st) && st.r.RDropSwap? && Last(st.c.hist) == UNPARKING && Waking(st)
    ensures REnabled(st, Swap)
    ensures var st' := RStep(st, Swap); Tidy(st') && st'.r.RDropSpin? && Last(st'.c.hist) == DISCONNECTED && Waking(st')
  {
    TidyReceiver(st, Swap);
  }

  /** From there the drop can free the channel before the sender is done with it. */
  lemma DropOvertakes(k: nat) returns (run: seq<Label>)
    ensures Runs(Fast, Init, run) && UseAfterFree in After(Fast, Init, run).g.faults
  {
    run := DropMeetsUnparking(k);
    var st := After(Fast, Init, run);
    GoodInit();
    GoodRun(Fast, Init, run);
    SwapsOver(st);
    RunSnoc(Fast, Init, run, R(Swap));
    run := run + [R(Swap)];
    var rest := Overtake(RStep(st, Swap));
    OvertakeFrees(Fast, RStep(st, Swap));
    RunConcat(Fast, Init, run, rest);
    run := run + rest;
  }

  // The other way out of the loop: the spin load reads the sender's MESSAGE.

  /** The drop spins after its swap over UNPARKING, and the sender may have gone on. */
  predicate Spun(st: State) {
    st.c.hist != [] && st.rv.cur.pos < |st.c.hist| && st.r.RDropSpin? && st.g.faults == {} &&
    st.c.live && st.g.frees == [] && st.g.fates == [] &&
    (st.g.sent.Some? <==> Sending(st.s)) && st.c.msg == st.g.sent && st.c.msgAcc.s <= st.rv.cur.s &&
    if Waking(st) then
      UpToDate(st) && Last(st.c.hist) == DISCONNECTED &&
      (st.s.STakeWaker? ==> st.c.waker.Some? && st.c.wakAcc.r <= st.sv.cur.r)
    else
      Left(st) && st.c.cellAcc.s <= st.c.hist[|st.c.hist| - 1].rel.s &&
      (forall i :: st.rv.cur.pos <= i < |st.c.hist| - 1 ==> st.c.hist[i].val == DISCONNECTED) &&
      Last(st.c.hist) == if Sending(st.s) then MESSAGE else DISCONNECTED
  }

  lemma SpunSwap(st: State)
    requires Safe(st) && MessageKept(st) && st.r.RDropSwap? && Last(st.c.hist) == UNPARKING
    ensures REnabled(st, Swap) && Spun(RStep(st, Swap))
  {
  }

  lemma SpunSender(how: Arithmetic, st: State, a: SAct)
    requires Spun(st) && SEnabled(st, a)
    ensures Spun(SStep(how, st, a))
  {
  }

  /** Where the receiver can be once its swap has returned UNPARKING. */
  predicate Spins(st: State) {
    match st.r
    case RDropSpin => Spun(st)
    case RDropSpinMsg => true
    case RTail(op, _) => op.Drop?
    case RDone => true
    case RPanic => true
    case _ => false
  }

  ghost predicate Either(st: State) {
    if st.g.broken then Spins(st) else Good(st)
  }

  lemma OnlyItsSwapBreaks(st: State, a: RAct)
    requires REnabled(st, a) && !st.g.broken && RStep(st, a).g.broken
    ensures a == Swap && st.r.RDropSwap? && Last(st.c.hist) == UNPARKING
  {
    ReceiverEffect(st, a);
  }

  lemma SpinsReceiver(st: State, a: RAct)
    requires Spins(st) && REnabled(st, a)
    ensures Spins(RStep(st, a))
  {
    ReceiverEffect(st, a);
  }

  lemma SpinsSender(how: Arithmetic, st: State, a: SAct)
    requires Spins(st) && SEnabled(st, a)
    ensures Spins(SStep(how, st, a)) && SStep(how, st, a).g.broken == st.g.broken
  {
    if st.r.RDropSpin? {
      SpunSender(how, st, a);
    }
  }

  lemma EitherReceiver(st: State, a: RAct)
    requires Either(st) && REnabled(st, a)
    ensures Either(RStep(st, a))
  {
    if st.g.broken {
      SpinsReceiver(st, a);
      ReceiverEffect(st, a);
    } else if RStep(st, a).g.broken {
      OnlyItsSwapBreaks(st, a);
      SpunSwap(st);
    } else {
      GoodReceiver(st, a);
    }
  }

  lemma EitherSender(how: Arithmetic, st: State, a: SAct)
    requires Either(st) && SEnabled(st, a)
    ensures Either(SStep(how, st, a))
  {
    if st.g.broken {
      SpinsSender(how, st, a);
    } else {
      GoodSender(how, st, a);
    }
  }

  lemma {:induction false} EitherRun(how: Arithmetic, st: State, run: seq<Label>)
    requires Either(st) && Runs(how, st, run)
    ensures Either(After(how, st, run))
    decreases |run|
  {
    if run != [] {
      match run[0] {
        case S(a) => EitherSender(how, st, a);
        case R(a) => EitherReceiver(st, a);
      }
      EitherRun(how, Step(how, st, run[0]), run[1..]);
    }
  }

  /** The spin load has read MESSAGE: what is left of the drop, with sent message `m`. */
  predicate Saved(st: State, m: Message) {
    Left(st) && st.g.sent == Some(m) && st.g.faults == {} && st.c.hist != [] &&
    match st.r
    case RDropSpinMsg =>
      st.c.msg == Some(m) && st.g.fates == [] && st.c.live && st.g.frees == [] &&
      st.c.msgAcc.s <= st.rv.cur.s && st.c.cellAcc.s <= st.rv.acq.s
    case RTail(op, t) =>
      op == Drop(true) && t.free && !t.dropWaker && !t.store && !t.take && !t.dropMsg && t.out.None? &&
      st.c.msg.None? && st.g.fates == [DroppedByReceiver(m)] && st.c.live && st.g.frees == [] &&
      (if t.fence then st.c.cellAcc.s <= st.rv.acq.s else st.c.cellAcc.s <= st.rv.cur.s)
    case RDone =>
      st.c.msg.None? && st.g.fates == [DroppedByReceiver(m)] && !st.c.live && st.g.frees == [Free(ReceiverSide, true, true)]
    case _ => false
  }

  lemma SavedLoad(st: State, i: nat)
    requires Spun(st) && REnabled(st, LoadAt(i)) && st.c.hist[i].val == MESSAGE
    ensures st.g.sent.Some? && Saved(RStep(st, LoadAt(i)), st.g.sent.value)
  {
  }

  lemma SavedReceiver(st: State, m: Message, a: RAct)
    requires Saved(st, m) && REnabled(st, a)
    ensures Saved(RStep(st, a), m)
  {
  }

  lemma SavedSender(how: Arithmetic, st: State, m: Message, a: SAct)
    requires Saved(st, m) && SEnabled(st, a)
    ensures Saved(SStep(how, st, a), m)
  {
  }

  lemma {:induction false} SavedRun(how: Arithmetic, st: State, m: Message, run: seq<Label>)
    requires Saved(st, m) && Runs(how, st, run)
    ensures Saved(After(how, st, run), m)
    decreases |run|
  {
    if run != [] {
      match run[0] {
        case S(a) => SavedSender(how, st, m, a);
        case R(a) => SavedReceiver(st, m, a);
      }
      SavedRun(how, Step(how, st, run[0]), m, run[1..]);
    }
  }

  /** Whenever the spin load reads MESSAGE, whatever happens then is free of faults, and by the
      end of the drop the message has been dropped by the receiver, once, and the channel freed,
      once, after all that the sender did to it. */
  lemma SpinFindsMessage(how: Arithmetic, run: seq<Label>, i: nat, rest: seq<Label>)
    requires Runs(how, Init, run) && After(how, Init, run).r.RDropSpin?
    requires REnabled(After(how, Init, run), LoadAt(i)) && After(how, Init, run).c.hist[i].val == MESSAGE
    requires Runs(how, RStep(After(how, Init, run), LoadAt(i)), rest)
    ensures var st, end := After(how, Init, run), After(how, RStep(After(how, Init, run), LoadAt(i)), rest);
      end.g.faults == {} && st.g.sent.Some? &&
      (end.r.RDone? ==>
        end.g.fates == [DroppedByReceiver(st.g.sent.value)] && end.g.frees == [Free(ReceiverSide, true, true)])
  {
    var st := After(how, Init, run);
    GoodInit();
    EitherRun(how, Init, run);
    SavedLoad(st, i);
    SavedRun(how, RStep(st, LoadAt(i)), st.g.sent.value, rest);
  }

  // And if the spin load reads DISCONNECTED?

  /** The loop has ended on DISCONNECTED with the sender past its final swap. A message that was
      sent stays where it is. */
  predicate Quits(st: State) {
    Left(st) && st.g.faults == {} && st.c.hist != [] && st.g.fates == [] && st.c.msg == st.g.sent &&
    match st.r
    case RTail(op, t) => op == Drop(true) && t.free && !t.dropWaker && !t.store && !t.take && !t.dropMsg && st.c.live
    case RDone => true
    case _ => false
  }

  lemma QuitsReceiver(st: State, a: RAct)
    requires Quits(st) && REnabled(st, a)
    ensures Quits(RStep(st, a)) && RStep(st, a).g.sent == st.g.sent
  {
  }

  lemma QuitsSender(how: Arithmetic, st: State, a: SAct)
    requires Quits(st) && SEnabled(st, a)
    ensures Quits(SStep(how, st, a)) && SStep(how, st, a).g.sent == st.g.sent
  {
  }

  lemma {:induction false} QuitsRun(how: Arithmetic, st: State, run: seq<Label>)
    requires Quits(st) && Runs(how, st, run)
    ensures Quits(After(how, st, run)) && After(how, st, run).g.sent == st.g.sent
    decreases |run|
  {
    if run != [] {
      match run[0] {
        case S(a) => QuitsSender(how, st, a);
        case R(a) => QuitsReceiver(st, a);
      }
      QuitsRun(how, Step(how, st, run[0]), run[1..]);
    }
  }

  lemma QuitLoad(st: State, i: nat)
    requires Spun(st) && REnabled(st, LoadAt(i)) && st.c.hist[i].val == DISCONNECTED
    ensures var st' := RStep(st, LoadAt(i));
      st'.r == RTail(Drop(true), FenceFree) && st'.s == st.s && st'.c.hist == st.c.hist && st'.g.sent == st.g.sent && (Left(st) ==> Quits(st'))
  {
  }

  /** The fence, the free and the sender's next step. */
  lemma QuitsEarly(how: Arithmetic, st: State) returns (rest: seq<Label>)
    requires st.r == RTail(Drop(true), FenceFree) && st.c.hist != [] && Waking(st)
    ensures Runs(how, st, rest) && UseAfterFree in After(how, st, rest).g.faults
  {
    FencesThenFrees(how, st);
    rest := [R(Fence), R(FreeCell)];
    var l := S(if st.s.STakeWaker? then TakeWaker else FinalSwap);
    RunSnoc(how, st, rest, l);
    rest := rest + [l];
  }

  /** If it has, a message that was sent is never disposed of: the load missed it. */
  lemma SpinMissesMessage(how: Arithmetic, run: seq<Label>, i: nat, rest: seq<Label>)
    requires Runs(how, Init, run) && After(how, Init, run).r.RDropSpin? && Left(After(how, Init, run))
    requires REnabled(After(how, Init, run), LoadAt(i)) && After(how, Init, run).c.hist[i].val == DISCONNECTED
    requires Runs(how, RStep(After(how, Init, run), LoadAt(i)), rest)
    ensures var end := After(how, RStep(After(how, Init, run), LoadAt(i)), rest);
      end.g.sent == After(how, Init, run).g.sent && end.g.fates == [] && end.c.msg == end.g.sent
  {
    GoodInit();
    EitherRun(how, Init, run);
    QuitLoad(After(how, Init, run), i);
    QuitsRun(how, RStep(After(how, Init, run), LoadAt(i)), rest);
  }

  /** Whenever the spin load reads DISCONNECTED, all that can happen then is free of faults if and
      only if the sender has made its final swap. */
  lemma SpinQuitsExactly(how: Arithmetic, run: seq<Label>, i: nat)
    requires Runs(how, Init, run) && After(how, Init, run).r.RDropSpin?
    requires REnabled(After(how, Init, run), LoadAt(i)) && After(how, Init, run).c.hist[i].val == DISCONNECTED
    ensures var st := After(how, Init, run);
      (forall rest :: Runs(how, RStep(st, LoadAt(i)), rest) ==> After(how, RStep(st, LoadAt(i)), rest).g.faults == {})
      <==> Left(st)
  {
    var st := After(how, Init, run);
    GoodInit();
    EitherRun(how, Init, run);
    var st' := RStep(st, LoadAt(i));
    QuitLoad(st, i);
    if Left(st) {
      forall rest | Runs(how, st', rest)
        ensures After(how, st', rest).g.faults == {}
      {
        QuitsRun(how, st', rest);
      }
    } else {
      var rest := QuitsEarly(how, st');
      assert After(how, st', rest).g.faults != {};
    }
  }
}
