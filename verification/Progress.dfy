/**
 No lost wakeup, no deadlock, and termination: a parked receiver always has a wakeup coming,
 and once the sender has finished, every call ends after a bounded number of steps for each
 spurious wakeup or stale load it suffers.
 */
module Progress {
  import opened States
  import opened Memory
  import opened Protocol
  import opened Invariant
  import opened LedgerInvariant
  import opened Effects
  import opened Wakeups
  import opened Reachable

  predicate InPark(r: RPc) {
    r.RPark? || r.RWaitPark?
  }

  /** The sender has steps left before or including an unpark of `who`. */
  predicate OwesUnpark(st: State, who: Who) {
    var h := Handle(st);
    (Before(st) || Waking(st) || st.s.SUnpark?) && h.Some? && h.value < |st.g.wakers| && st.g.wakers[h.value] == who
  }

  /** A receiver parked without a token has a sender that still owes its thread an unpark. */
  lemma NoLostWakeup(how: Arithmetic, run: seq<Label>)
    requires Runs(how, Init, run) && !After(how, Init, run).g.broken && InPark(After(how, Init, run).r)
    ensures var st := After(how, Init, run);
      OpThread(st.r.op) in st.g.tokens || OwesUnpark(st, Thread(OpThread(st.r.op)))
  {
    GoodInit();
    GoodRun(how, Init, run);
    assert OpWho(After(how, Init, run).r.op) == Thread(OpThread(After(how, Init, run).r.op));
  }

  /** A call is running. */
  predicate Busy(r: RPc) {
    !r.RIdle? && !r.RDone?
  }

  /** The sender's next step, if it has one: it is never stuck before it is done. */
  function SenderNext(st: State): SAct {
    match st.s
    case SAlive => FetchXor
    case SPublish => FetchAdd
    case STakeWaker(_) => TakeWaker
    case SFinalSwap(_, _) => FinalSwap
    case SUnpark(_, _) => Unpark
    case SError => DropError
    case _ => SFree
  }

  lemma SenderNotStuck(st: State)
    requires Good(st) && !st.s.SFinished? && !st.s.SReleased?
    ensures SEnabled(st, SenderNext(st))
  {
    if st.s.SUnpark? {
      assert Count(SenderHolds(st.s), st.s.w) == 1;
    }
  }

  /** A step that brings the call closer to its end; the others are spurious wakeups and loads
      of an old entry. */
  predicate Productive(st: State, a: RAct) {
    match a
    case Wake(spurious) => !spurious
    case LoadAt(i) => i == |st.c.hist| - 1
    case _ => true
  }

  function Items(t: Todo): nat {
    (if t.dropWaker then 1 else 0) + (if t.store then 1 else 0) + (if t.fence then 1 else 0) +
    (if t.take then 1 else 0) + (if t.dropMsg then 1 else 0) + (if t.free then 1 else 0)
  }

  /** Steps a call may still need once the sender has finished. */
  function Rank(st: State): nat {
    match st.r
    case RReplaceDrop(_) => 12
    case RWrite(_) => 11
    case RArm(_) => 10
    case RPark(_) => 9
    case RWaitPark(_, _) => 9
    case RCheck(_) => if UpToDate(st) then 8 else 10
    case RWaitCheck(_, _) => if UpToDate(st) then 8 else 10
    case RReplace(_) => 9
    case RSpin(_) => 9
    case RSelfWake(_) => 1
    case RDropCas => 10
    case RDropOld => 10
    case RDropSwap => 9
    case RTail(_, t) => Items(t)
    case _ => 0
  }

  /** The step brings the call closer to its end, or at least not far from it. */
  predicate Nearer(st: State, a: RAct, st': State) {
    if Productive(st, a) then Rank(st') < Rank(st) else Rank(st') <= Rank(st) + 1
  }

  lemma RankTail(st: State, a: RAct, st': State)
    requires Control(st) && WakeupsKept(st) && st.s.SFinished? && Busy(st.r) && REnabled(st, a)
    requires ReceiverShows(st, a, st') && Sees(st, a, st')
    requires st.r.RTail?
    ensures Nearer(st, a, st')
  {
  }

  lemma RankLoadParked(st: State, a: RAct, st': State)
    requires Control(st) && WakeupsKept(st) && st.s.SFinished? && Busy(st.r) && REnabled(st, a)
    requires ReceiverShows(st, a, st') && Sees(st, a, st')
    requires a.LoadAt?
    requires st.r.RCheck? || st.r.RWaitCheck?
    ensures Nearer(st, a, st')
  {
  }

  lemma RankLoadPolled(st: State, a: RAct, st': State)
    requires Control(st) && WakeupsKept(st) && st.s.SFinished? && Busy(st.r) && REnabled(st, a)
    requires ReceiverShows(st, a, st') && Sees(st, a, st')
    requires a.LoadAt?
    requires !st.r.RCheck? && !st.r.RWaitCheck?
    ensures Nearer(st, a, st')
  {
  }

  lemma RankLoad(st: State, a: RAct, st': State)
    requires Control(st) && WakeupsKept(st) && st.s.SFinished? && Busy(st.r) && REnabled(st, a)
    requires ReceiverShows(st, a, st') && Sees(st, a, st')
    requires a.LoadAt?
    ensures Nearer(st, a, st')
  {
    if st.r.RCheck? || st.r.RWaitCheck? {
      RankLoadParked(st, a, st');
    } else {
      RankLoadPolled(st, a, st');
    }
  }

  lemma RankOther(st: State, a: RAct, st': State)
    requires Control(st) && WakeupsKept(st) && st.s.SFinished? && Busy(st.r) && REnabled(st, a)
    requires ReceiverShows(st, a, st') && Sees(st, a, st')
    requires !st.r.RTail? && !a.LoadAt?
    ensures Nearer(st, a, st')
  {
  }

  lemma RankStep(st: State, a: RAct, st': State)
    requires Control(st) && WakeupsKept(st) && st.s.SFinished? && Busy(st.r) && REnabled(st, a)
    requires ReceiverShows(st, a, st') && Sees(st, a, st')
    ensures Nearer(st, a, st')
  {
    if st.r.RTail? {
      RankTail(st, a, st');
    } else if a.LoadAt? {
      RankLoad(st, a, st');
    } else {
      RankOther(st, a, st');
    }
  }

  lemma RankDecreases(st: State, a: RAct)
    requires Good(st) && st.s.SFinished? && Busy(st.r) && REnabled(st, a)
    ensures Nearer(st, a, RStep(st, a))
  {
    ReceiverEffect(st, a);
    ReceiverSees(st, a);
    RankStep(st, a, RStep(st, a));
  }

  /** A productive step that is enabled: once the sender has finished, a call never blocks. */
  function ReceiverNext(st: State): RAct
    requires st.c.hist != []
  {
    var newest := |st.c.hist| - 1;
    match st.r
    case RWrite(_) => PutWaker
    case RReplaceDrop(_) => DiscardWaker
    case RDropOld => DiscardWaker
    case RSelfWake(_) => WakeSelf
    case RPark(_) => Wake(false)
    case RWaitPark(_, _) => Wake(false)
    case RArm(op) => if op.Poll? && Last(st.c.hist) != EMPTY then LoadAt(newest) else Swap
    case RDropSwap => Swap
    case RTail(_, t) => Head(t)
    case _ => LoadAt(newest)
  }

  lemma ReceiverNotStuck(st: State)
    requires Good(st) && st.s.SFinished? && Busy(st.r)
    ensures REnabled(st, ReceiverNext(st)) && Productive(st, ReceiverNext(st))
  {
  }

  /** `run` is executed from `st` and the call that is running ends, if at all, with it. */
  ghost predicate WithinCall(how: Arithmetic, st: State, run: seq<Label>)
    decreases |run|
  {
    run == [] || (Busy(st.r) && Enabled(st, run[0]) && WithinCall(how, Step(how, st, run[0]), run[1..]))
  }

  ghost function IdleSteps(how: Arithmetic, st: State, run: seq<Label>): nat
    requires WithinCall(how, st, run)
    decreases |run|
  {
    if run == [] then 0 else
      (if run[0].R? && !Productive(st, run[0].ra) then 1 else 0) + IdleSteps(how, Step(how, st, run[0]), run[1..])
  }

  /** Once the sender has finished, a call takes at most `Rank` steps plus two for each
      spurious wakeup or stale load. */
  lemma {:induction false} CallsEnd(how: Arithmetic, st: State, run: seq<Label>)
    requires Good(st) && st.s.SFinished? && WithinCall(how, st, run)
    ensures |run| <= Rank(st) + 2 * IdleSteps(how, st, run)
    decreases |run|
  {
    if run != [] {
      var a := run[0].ra;
      RankDecreases(st, a);
      FinishedUnbroken(st, a);
      GoodReceiver(st, a);
      CallsEnd(how, RStep(st, a), run[1..]);
    }
  }

  lemma FinishedUnbroken(st: State, a: RAct)
    requires Good(st) && st.s.SFinished? && REnabled(st, a)
    ensures !RStep(st, a).g.broken && RStep(st, a).s == st.s
  {
    ReceiverFrame(st, a);
    NotBroken(st, a);
  }

  lemma NotBrokenDrop(st: State, a: RAct)
    requires Control(st) && st.s.SFinished? && REnabled(st, a)
    requires a.Swap?
    ensures !MoveOf(st, a).broken
  {
  }

  lemma NotBrokenElse(st: State, a: RAct)
    requires Control(st) && st.s.SFinished? && REnabled(st, a)
    requires !a.Swap?
    ensures !MoveOf(st, a).broken
  {
  }

  /** A sender that has finished does not leave UNPARKING behind. */
  lemma NotBroken(st: State, a: RAct)
    requires Control(st) && st.s.SFinished? && REnabled(st, a)
    ensures !MoveOf(st, a).broken
  {
    if a.Swap? {
      NotBrokenDrop(st, a);
    } else {
      NotBrokenElse(st, a);
    }
  }
}
