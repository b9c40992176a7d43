/**
 Sequentially consistent runs simulate an atomic one-message channel: a send takes effect at
 its write of MESSAGE, a failed send at its fetch_add on DISCONNECTED, a receive at its read
 of MESSAGE or DISCONNECTED.
 */
module Refinement {
  import opened States
  import opened Memory
  import opened Protocol
  import opened Invariant
  import opened Effects
  import opened Reachable
  import opened AtomicChannel

  /** The label reads the newest entry, as under sequential consistency. */
  predicate Current(st: State, l: Label) {
    match l
    case S(a) => a.SIsClosed? ==> a.i == |st.c.hist| - 1
    case R(a) => (a.Begin? || a.LoadAt?) ==> a.i == |st.c.hist| - 1
  }

  predicate Consistent(how: Arithmetic, st: State, run: seq<Label>)
    requires Runs(how, st, run)
    decreases |run|
  {
    run == [] || (Current(st, run[0]) && Consistent(how, Step(how, st, run[0]), run[1..]))
  }

  /** The receiver is past its read of the sender's final state, or gone. */
  predicate Acted(r: RPc) {
    r.RDone? || (r.RTail? && r.todo.out != Some(Timeout))
  }

  /** The result the running call is already committed to. */
  function Committed(st: State): seq<Outcome> {
    match st.r
    case RSelfWake(_) => [Pending]
    case RTail(_, t) =>
      if t.take then if st.c.msg.Some? then [Got(st.c.msg.value)] else []
      else if t.out.Some? then [t.out.value] else []
    case _ => []
  }

  function ContentOf(st: State): Content
    requires st.c.hist != []
  {
    if !Left(st) then Open
    else if !Acted(st.r) && Byte0(st) == MESSAGE && st.g.sent.Some? then Full(st.g.sent.value)
    else Shut
  }

  function Abstraction(st: State): Abstract
    requires st.c.hist != []
  {
    Abstract(
      ContentOf(st),
      Before(st) || Waking(st),
      !st.r.RDone? && !(st.r.RTail? && Consuming(st.r.op)),
      st.g.log + Committed(st),
      if !Sending(st.s) then None else if Left(st) then Some(true) else if Owns(st) then Some(false) else None)
  }

  function SenderEvent(st: State, a: SAct): Option<Event>
    requires st.c.hist != []
  {
    match a
    case FetchAdd =>
      if Byte0(st) == EMPTY && st.g.sent.Some? then Some(Send(st.g.sent.value))
      else if Byte0(st) == DISCONNECTED then Some(SendFails) else None
    case FetchXor => if Byte0(st) == RECEIVING then None else Some(CloseSender)
    case FinalSwap =>
      if !Sending(st.s) then Some(CloseSender)
      else if st.g.sent.Some? then Some(Send(st.g.sent.value)) else None
    case _ => None
  }

  /** The event of a read of `v` by a receive. */
  function ReadEvent(op: Op, v: Byte, nothing: Outcome): Event {
    if v == MESSAGE then Receive(Consuming(op))
    else if v == DISCONNECTED then ReceiveClosed(Consuming(op))
    else ReceiveNothing(nothing)
  }

  function ReceiverEvent(st: State, a: RAct): Option<Event>
    requires st.c.hist != []
  {
    var v := Byte0(st);
    var final := v == MESSAGE || v == DISCONNECTED;
    match a
    case Begin(op, _) =>
      if op.IsClosed? then Some(Look(Closed(v == DISCONNECTED)))
      else if op.HasMessage? then Some(Look(Has(v == MESSAGE)))
      else if op.Drop? then None
      else if final || op.TryRecv? then Some(ReadEvent(op, v, Empty)) else None
    case LoadAt(_) =>
      (match st.r
       case RDropCas => None
       case RReplace(op) => Some(ReadEvent(op, v, Pending))
       case RArm(op) => Some(ReadEvent(op, v, Pending))
       case RCheck(op) => if final then Some(ReadEvent(op, v, Empty)) else None
       case RWaitCheck(op, _) => if final then Some(ReadEvent(op, v, Empty)) else None
       case RSpin(op) => if final then Some(ReadEvent(op, v, Empty)) else None
       case _ => None)
    case Swap =>
      (match st.r
       case RIdle(_) => Some(CloseReceiver)
       case RDropSwap => Some(CloseReceiver)
       case RArm(op) => if op.Poll? || final then Some(ReadEvent(op, v, Pending)) else None
       case RPark(op) => if v == UNPARKING then None else Some(ReadEvent(op, v, Timeout))
       case _ => None)
    case _ => None
  }

  /** `st'` is what the atomic channel makes of `st` under event `e`, or under no event. */
  predicate Simulates(st: State, e: Option<Event>, st': State)
    requires st.c.hist != [] && st'.c.hist != []
  {
    if e.None? then Abstraction(st') == Abstraction(st)
    else Can(Abstraction(st), e.value) && Abstraction(st') == Do(Abstraction(st), e.value)
  }

  lemma RefinesAdd(how: Arithmetic, st: State)
    requires Tidy(st) && Control(st) && SEnabled(st, FetchAdd)
    ensures Simulates(st, SenderEvent(st, FetchAdd), SStep(how, st, FetchAdd))
  {
  }

  lemma RefinesXor(how: Arithmetic, st: State)
    requires Tidy(st) && Control(st) && SEnabled(st, FetchXor)
    ensures Simulates(st, SenderEvent(st, FetchXor), SStep(how, st, FetchXor))
  {
  }

  lemma RefinesFinal(how: Arithmetic, st: State, a: SAct)
    requires Tidy(st) && Control(st) && SEnabled(st, a) && !a.FetchAdd? && !a.FetchXor?
    requires a.FinalSwap?
    ensures Simulates(st, SenderEvent(st, a), SStep(how, st, a))
  {
  }

  lemma RefinesWaking(how: Arithmetic, st: State, a: SAct)
    requires Tidy(st) && Control(st) && SEnabled(st, a) && !a.FetchAdd? && !a.FetchXor?
    requires a.SIsClosed? || a.WriteMessage? || a.TakeWaker? || a.Unpark?
    ensures Simulates(st, SenderEvent(st, a), SStep(how, st, a))
  {
  }

  lemma RefinesError(how: Arithmetic, st: State, a: SAct)
    requires Tidy(st) && Control(st) && SEnabled(st, a) && !a.FetchAdd? && !a.FetchXor?
    requires a.PeekError? || a.TakeError? || a.DropError? || a.SFree?
    ensures Simulates(st, SenderEvent(st, a), SStep(how, st, a))
  {
  }

  lemma RefinesSender(how: Arithmetic, st: State, a: SAct)
    requires Tidy(st) && Control(st) && SEnabled(st, a) && !a.FetchAdd? && !a.FetchXor?
    ensures Simulates(st, SenderEvent(st, a), SStep(how, st, a))
  {
    if a.FinalSwap? {
      RefinesFinal(how, st, a);
    } else if a.SIsClosed? || a.WriteMessage? || a.TakeWaker? || a.Unpark? {
      RefinesWaking(how, st, a);
    } else {
      RefinesError(how, st, a);
    }
  }

  // Receiver steps, from what they show alone.

  lemma RefinesLook(st: State, a: RAct, st': State)
    requires Tidy(st) && Control(st) && REnabled(st, a) && Current(st, R(a)) && !MoveOf(st, a).broken
    requires ReceiverShows(st, a, st')
    requires a.Begin? && (a.op.IsClosed? || a.op.HasMessage? || a.op.Drop?)
    ensures Simulates(st, ReceiverEvent(st, a), st')
  {
  }

  lemma RefinesTry(st: State, a: RAct, st': State)
    requires Tidy(st) && Control(st) && REnabled(st, a) && Current(st, R(a)) && !MoveOf(st, a).broken
    requires ReceiverShows(st, a, st')
    requires a.Begin? && !a.op.IsClosed? && !a.op.HasMessage? && !a.op.Drop?
    requires a.op.TryRecv? || a.op.Poll?
    ensures Simulates(st, ReceiverEvent(st, a), st')
  {
  }

  lemma RefinesStart(st: State, a: RAct, st': State)
    requires Tidy(st) && Control(st) && REnabled(st, a) && Current(st, R(a)) && !MoveOf(st, a).broken
    requires ReceiverShows(st, a, st')
    requires a.Begin? && !a.op.IsClosed? && !a.op.HasMessage? && !a.op.Drop?
    requires !a.op.TryRecv? && !a.op.Poll?
    ensures Simulates(st, ReceiverEvent(st, a), st')
  {
  }

  lemma RefinesBegin(st: State, a: RAct, st': State)
    requires Tidy(st) && Control(st) && REnabled(st, a) && Current(st, R(a)) && !MoveOf(st, a).broken
    requires ReceiverShows(st, a, st')
    requires a.Begin? && !a.op.IsClosed? && !a.op.HasMessage? && !a.op.Drop?
    ensures Simulates(st, ReceiverEvent(st, a), st')
  {
    if a.op.TryRecv? || a.op.Poll? {
      RefinesTry(st, a, st');
    } else {
      RefinesStart(st, a, st');
    }
  }

  lemma RefinesLoadParked(st: State, a: RAct, st': State)
    requires Tidy(st) && Control(st) && REnabled(st, a) && Current(st, R(a)) && !MoveOf(st, a).broken
    requires ReceiverShows(st, a, st')
    requires a.LoadAt?
    requires st.r.RCheck? || st.r.RWaitCheck?
    ensures Simulates(st, ReceiverEvent(st, a), st')
  {
  }

  lemma RefinesLoadArm(st: State, a: RAct, st': State)
    requires Tidy(st) && Control(st) && REnabled(st, a) && Current(st, R(a)) && !MoveOf(st, a).broken
    requires ReceiverShows(st, a, st')
    requires a.LoadAt?
    requires st.r.RArm? || st.r.RReplace?
    requires st.r.RArm?
    ensures Simulates(st, ReceiverEvent(st, a), st')
  {
  }

  lemma RefinesLoadReplace(st: State, a: RAct, st': State)
    requires Tidy(st) && Control(st) && REnabled(st, a) && Current(st, R(a)) && !MoveOf(st, a).broken
    requires ReceiverShows(st, a, st')
    requires a.LoadAt?
    requires st.r.RArm? || st.r.RReplace?
    requires !st.r.RArm?
    ensures Simulates(st, ReceiverEvent(st, a), st')
  {
  }

  lemma RefinesLoadPolled(st: State, a: RAct, st': State)
    requires Tidy(st) && Control(st) && REnabled(st, a) && Current(st, R(a)) && !MoveOf(st, a).broken
    requires ReceiverShows(st, a, st')
    requires a.LoadAt?
    requires st.r.RArm? || st.r.RReplace?
    ensures Simulates(st, ReceiverEvent(st, a), st')
  {
    if st.r.RArm? {
      RefinesLoadArm(st, a, st');
    } else {
      RefinesLoadReplace(st, a, st');
    }
  }

  lemma RefinesLoadOther(st: State, a: RAct, st': State)
    requires Tidy(st) && Control(st) && REnabled(st, a) && Current(st, R(a)) && !MoveOf(st, a).broken
    requires ReceiverShows(st, a, st')
    requires a.LoadAt?
    requires !st.r.RCheck? && !st.r.RWaitCheck? && !st.r.RArm? && !st.r.RReplace?
    ensures Simulates(st, ReceiverEvent(st, a), st')
  {
  }

  lemma RefinesLoad(st: State, a: RAct, st': State)
    requires Tidy(st) && Control(st) && REnabled(st, a) && Current(st, R(a)) && !MoveOf(st, a).broken
    requires ReceiverShows(st, a, st')
    requires a.LoadAt?
    ensures Simulates(st, ReceiverEvent(st, a), st')
  {
    if st.r.RCheck? || st.r.RWaitCheck? {
      RefinesLoadParked(st, a, st');
    } else if st.r.RArm? || st.r.RReplace? {
      RefinesLoadPolled(st, a, st');
    } else {
      RefinesLoadOther(st, a, st');
    }
  }

  lemma RefinesSwapArm(st: State, a: RAct, st': State)
    requires Tidy(st) && Control(st) && REnabled(st, a) && Current(st, R(a)) && !MoveOf(st, a).broken
    requires ReceiverShows(st, a, st')
    requires a.Swap?
    requires st.r.RArm?
    ensures Simulates(st, ReceiverEvent(st, a), st')
  {
  }

  lemma RefinesDeadline(st: State, a: RAct, st': State)
    requires Tidy(st) && Control(st) && REnabled(st, a) && Current(st, R(a)) && !MoveOf(st, a).broken
    requires ReceiverShows(st, a, st')
    requires a.Swap?
    requires st.r.RPark?
    ensures Simulates(st, ReceiverEvent(st, a), st')
  {
  }

  lemma RefinesSwapOther(st: State, a: RAct, st': State)
    requires Tidy(st) && Control(st) && REnabled(st, a) && Current(st, R(a)) && !MoveOf(st, a).broken
    requires ReceiverShows(st, a, st')
    requires a.Swap?
    requires !st.r.RArm? && !st.r.RPark?
    ensures Simulates(st, ReceiverEvent(st, a), st')
  {
  }

  lemma RefinesSwap(st: State, a: RAct, st': State)
    requires Tidy(st) && Control(st) && REnabled(st, a) && Current(st, R(a)) && !MoveOf(st, a).broken
    requires ReceiverShows(st, a, st')
    requires a.Swap?
    ensures Simulates(st, ReceiverEvent(st, a), st')
  {
    if st.r.RArm? {
      RefinesSwapArm(st, a, st');
    } else if st.r.RPark? {
      RefinesDeadline(st, a, st');
    } else {
      RefinesSwapOther(st, a, st');
    }
  }

  lemma RefinesTake(st: State, a: RAct, st': State)
    requires Tidy(st) && Control(st) && REnabled(st, a) && Current(st, R(a)) && !MoveOf(st, a).broken
    requires ReceiverShows(st, a, st')
    requires a.TakeMessage?
    ensures Simulates(st, ReceiverEvent(st, a), st')
  {
  }

  lemma RefinesDiscard(st: State, a: RAct, st': State)
    requires Tidy(st) && Control(st) && REnabled(st, a) && Current(st, R(a)) && !MoveOf(st, a).broken
    requires ReceiverShows(st, a, st')
    requires st.r.RTail? && !a.TakeMessage?
    requires a.DiscardWaker? || a.DiscardMessage?
    ensures Simulates(st, ReceiverEvent(st, a), st')
  {
  }

  lemma RefinesItem(st: State, a: RAct, st': State)
    requires Tidy(st) && Control(st) && REnabled(st, a) && Current(st, R(a)) && !MoveOf(st, a).broken
    requires ReceiverShows(st, a, st')
    requires st.r.RTail? && !a.TakeMessage?
    requires !a.DiscardWaker? && !a.DiscardMessage?
    ensures Simulates(st, ReceiverEvent(st, a), st')
  {
  }

  lemma RefinesTail(st: State, a: RAct, st': State)
    requires Tidy(st) && Control(st) && REnabled(st, a) && Current(st, R(a)) && !MoveOf(st, a).broken
    requires ReceiverShows(st, a, st')
    requires st.r.RTail? && !a.TakeMessage?
    ensures Simulates(st, ReceiverEvent(st, a), st')
  {
    if a.DiscardWaker? || a.DiscardMessage? {
      RefinesDiscard(st, a, st');
    } else {
      RefinesItem(st, a, st');
    }
  }

  lemma RefinesOther(st: State, a: RAct, st': State)
    requires Tidy(st) && Control(st) && REnabled(st, a) && Current(st, R(a)) && !MoveOf(st, a).broken
    requires ReceiverShows(st, a, st')
    requires !a.Begin? && !a.LoadAt? && !a.Swap? && !st.r.RTail?
    ensures Simulates(st, ReceiverEvent(st, a), st')
  {
  }

  lemma RefinesReceiver(st: State, a: RAct, st': State)
    requires Tidy(st) && Control(st) && REnabled(st, a) && Current(st, R(a)) && !MoveOf(st, a).broken
    requires ReceiverShows(st, a, st')
    ensures Simulates(st, ReceiverEvent(st, a), st')
  {
    if a.Begin? && (a.op.IsClosed? || a.op.HasMessage? || a.op.Drop?) {
      RefinesLook(st, a, st');
    } else if a.Begin? && !a.op.IsClosed? && !a.op.HasMessage? && !a.op.Drop? {
      RefinesBegin(st, a, st');
    } else if a.LoadAt? {
      RefinesLoad(st, a, st');
    } else if a.Swap? {
      RefinesSwap(st, a, st');
    } else if a.TakeMessage? {
      RefinesTake(st, a, st');
    } else if st.r.RTail? && !a.TakeMessage? {
      RefinesTail(st, a, st');
    } else {
      RefinesOther(st, a, st');
    }
  }

  function EventOf(st: State, l: Label): Option<Event>
    requires st.c.hist != []
  {
    match l
    case S(a) => SenderEvent(st, a)
    case R(a) => ReceiverEvent(st, a)
  }

  lemma RefinesStep(how: Arithmetic, st: State, l: Label)
    requires Tidy(st) && Control(st) && Enabled(st, l) && Current(st, l) && !Step(how, st, l).g.broken
    ensures Simulates(st, EventOf(st, l), Step(how, st, l))
  {
    match l {
      case S(a) =>
        if a.FetchAdd? { RefinesAdd(how, st); } else if a.FetchXor? { RefinesXor(how, st); } else { RefinesSender(how, st, a); }
      case R(a) =>
        ReceiverEffect(st, a);
        RefinesReceiver(st, a, RStep(st, a));
    }
  }

  /** The events of a run, in order. */
  function Events(how: Arithmetic, st: State, run: seq<Label>): seq<Event>
    requires Runs(how, st, run)
    decreases |run|
  {
    if run == [] || st.c.hist == [] then [] else
      var e := EventOf(st, run[0]);
      (if e.Some? then [e.value] else []) + Events(how, Step(how, st, run[0]), run[1..])
  }

  /** The events of the rest of a run, after that of its first step if it has one. */
  lemma TracesCons(a: Abstract, e: Option<Event>, rest: seq<Event>, a': Abstract)
    requires if e.None? then a' == a else Can(a, e.value) && a' == Do(a, e.value)
    requires Traces(a', rest)
    ensures var events := (if e.Some? then [e.value] else []) + rest;
      Traces(a, events) && Result(a, events) == Result(a', rest)
  {
    if e.Some? {
      assert ([e.value] + rest)[1..] == rest;
    } else {
      assert [] + rest == rest;
    }
  }

  lemma {:induction false} RefinesFrom(how: Arithmetic, st: State, run: seq<Label>)
    requires Good(st) && Runs(how, st, run) && Consistent(how, st, run) && !After(how, st, run).g.broken
    ensures After(how, st, run).c.hist != []
    ensures Traces(Abstraction(st), Events(how, st, run))
    ensures Result(Abstraction(st), Events(how, st, run)) == Abstraction(After(how, st, run))
    decreases |run|
  {
    if run != [] {
      var st' := Step(how, st, run[0]);
      if st'.g.broken {
        StaysBroken(how, st', run[1..]);
      }
      GoodStep(how, st, run[0]);
      RefinesStep(how, st, run[0]);
      RefinesFrom(how, st', run[1..]);
      TracesCons(Abstraction(st), EventOf(st, run[0]), Events(how, st', run[1..]), Abstraction(st'));
    }
  }

  /** Every sequentially consistent run is a run of the atomic channel with the same results. */
  lemma RefinesAtomicChannel(how: Arithmetic, run: seq<Label>)
    requires Runs(how, Init, run) && Consistent(how, Init, run) && !After(how, Init, run).g.broken
    ensures var events := Events(how, Init, run);
      var st := After(how, Init, run);
      Traces(Start, events) && st.c.hist != [] && Result(Start, events) == Abstraction(st) &&
      Result(Start, events).out == st.g.log + Committed(st) &&
      (st.g.sendOk.Some? ==> Result(Start, events).sent == st.g.sendOk)
  {
    GoodInit();
    GoodRun(how, Init, run);
    RefinesFrom(how, Init, run);
    assert Abstraction(Init) == Start;
  }
}
