/**
 A receiver whose call timed out, or found nothing, has a channel as good as new: from then on
 it behaves, step for step, like one fresh from `channel()`, however often that happens.
 */
module Renewal {
  import opened States
  import opened Memory
  import opened Protocol
  import opened Invariant
  import opened LedgerInvariant
  import opened Reachable

  /** What the used channel has behind it that the fresh one has not. */
  datatype Past = Past(d: nat, wakers: seq<Who>, log: seq<Outcome>, slog: seq<bool>, wakes: seq<Who>)

  function Renamed(w: Option<nat>, p: Past): Option<nat> {
    if w.Some? then Some(w.value + |p.wakers|) else None
  }

  function RenamedPc(s: SPc, p: Past): SPc {
    match s
    case SFinalSwap(b, w) => SFinalSwap(b, w + |p.wakers|)
    case SUnpark(b, w) => SUnpark(b, w + |p.wakers|)
    case _ => s
  }

  function Down(i: nat, p: Past): nat {
    if i < p.d then 0 else i - p.d
  }

  /** The bytes of `b` are the last ones of `a`. The receiver may read as far back in both; the
      sender may in `a` also read into the past, where no DISCONNECTED is. */
  predicate SameBytes(a: State, b: State, p: Past) {
    |a.c.hist| == |b.c.hist| + p.d && b.c.hist != [] && b.c.hist[0].val == EMPTY &&
    a.rv.cur.pos == b.rv.cur.pos + p.d &&
    (Before(a) ==> b.sv.cur.pos == Down(a.sv.cur.pos, p)) &&
    (a.s.SUnpark? ==> a.sv.cur.pos == b.sv.cur.pos + p.d) &&
    forall i :: p.d <= i < |a.c.hist| ==> a.c.hist[i].val == b.c.hist[i - p.d].val
  }

  /** Used channel `a` and fresh channel `b` are in corresponding states: the results still to
      come, the message, the sender and the wakers to be woken are the same. */
  predicate Renewed(a: State, b: State, p: Past) {
    SameBytes(a, b, p) && a.r == b.r && a.s == RenamedPc(b.s, p) &&
    a.c.msg == b.c.msg && a.c.waker == Renamed(b.c.waker, p) && a.c.live == b.c.live &&
    a.g.sent == b.g.sent && a.g.fates == b.g.fates && a.g.sendOk == b.g.sendOk && a.g.polled == b.g.polled &&
    a.g.broken == b.g.broken && a.g.lax == b.g.lax && a.g.log == p.log + b.g.log && a.g.slog == p.slog + b.g.slog &&
    a.g.wakers == p.wakers + b.g.wakers && a.g.wakes == p.wakes + b.g.wakes && a.g.tokens.Keys == b.g.tokens.Keys &&
    forall t :: t in b.g.tokens ==> a.g.tokens[t].pos == b.g.tokens[t].pos + p.d
  }

  /** The step of the fresh channel that corresponds to `l`. */
  function DownLabel(l: Label, p: Past): Label {
    match l
    case S(a) => S(if a.SIsClosed? then SIsClosed(Down(a.i, p)) else a)
    case R(a) => R(if a.Begin? then Begin(a.op, Down(a.i, p)) else if a.LoadAt? then LoadAt(Down(a.i, p)) else a)
  }

  /** The step of the used channel that corresponds to `l`. */
  function UpLabel(l: Label, p: Past): Label {
    match l
    case S(a) => S(if a.SIsClosed? then SIsClosed(a.i + p.d) else a)
    case R(a) => R(if a.Begin? then Begin(a.op, a.i + p.d) else if a.LoadAt? then LoadAt(a.i + p.d) else a)
  }

  lemma RenewedIsClosed(a: State, b: State, p: Past, i: nat)
    requires Tidy(a) && Tidy(b) && ClosedSeen(a) && Renewed(a, b, p) && SEnabled(a, SIsClosed(i))
    ensures SEnabled(b, SIsClosed(Down(i, p)))
    ensures Renewed(SStep(Fast, a, SIsClosed(i)), SStep(Fast, b, SIsClosed(Down(i, p))), p)
  {
  }

  lemma RenewedUpdate(a: State, b: State, p: Past, v: Byte, sending: bool)
    requires Renewed(a, b, p) && Before(a) && Last(a.c.hist) == Last(b.c.hist)
    ensures Renewed(FirstUpdate(a, v, sending), FirstUpdate(b, v, sending), p)
  {
  }

  lemma RenewedFirst(a: State, b: State, p: Past, x: SAct)
    requires Renewed(a, b, p) && SEnabled(a, x) && (x.FetchAdd? || x.FetchXor?)
    ensures SEnabled(b, x) && Renewed(SStep(Fast, a, x), SStep(Fast, b, x), p)
  {
    assert Last(a.c.hist) == Last(b.c.hist);
    var v := if x.FetchAdd? then AfterSend(Fast, Last(a.c.hist)) else AfterDrop(Fast, Last(a.c.hist));
    RenewedUpdate(Tick(a, SenderSide), Tick(b, SenderSide), p, v, x.FetchAdd?);
  }

  lemma RenewedUnpark(a: State, b: State, p: Past)
    requires Renewed(a, b, p) && SEnabled(a, Unpark)
    ensures SEnabled(b, Unpark) && Renewed(SStep(Fast, a, Unpark), SStep(Fast, b, Unpark), p)
  {
  }

  lemma RenewedWrite(a: State, b: State, p: Past, x: SAct)
    requires Renewed(a, b, p) && SEnabled(a, x)
    requires x.WriteMessage? || x.TakeWaker? || x.FinalSwap?
    requires x.WriteMessage?
    ensures SEnabled(b, x) && Renewed(SStep(Fast, a, x), SStep(Fast, b, x), p)
  {
  }

  lemma RenewedTakeWaker(a: State, b: State, p: Past, x: SAct)
    requires Renewed(a, b, p) && SEnabled(a, x)
    requires x.WriteMessage? || x.TakeWaker? || x.FinalSwap?
    requires x.TakeWaker?
    ensures SEnabled(b, x) && Renewed(SStep(Fast, a, x), SStep(Fast, b, x), p)
  {
  }

  lemma RenewedFinal(a: State, b: State, p: Past, x: SAct)
    requires Renewed(a, b, p) && SEnabled(a, x)
    requires x.WriteMessage? || x.TakeWaker? || x.FinalSwap?
    requires x.FinalSwap?
    ensures SEnabled(b, x) && Renewed(SStep(Fast, a, x), SStep(Fast, b, x), p)
  {
  }

  lemma RenewedWaking(a: State, b: State, p: Past, x: SAct)
    requires Renewed(a, b, p) && SEnabled(a, x)
    requires x.WriteMessage? || x.TakeWaker? || x.FinalSwap?
    ensures SEnabled(b, x) && Renewed(SStep(Fast, a, x), SStep(Fast, b, x), p)
  {
    if x.WriteMessage? {
      RenewedWrite(a, b, p, x);
    } else if x.TakeWaker? {
      RenewedTakeWaker(a, b, p, x);
    } else {
      RenewedFinal(a, b, p, x);
    }
  }

  lemma RenewedOwner(a: State, b: State, p: Past, x: SAct)
    requires Renewed(a, b, p) && SEnabled(a, x)
    requires x.PeekError? || x.SFree?
    ensures SEnabled(b, x) && Renewed(SStep(Fast, a, x), SStep(Fast, b, x), p)
  {
  }

  lemma RenewedError(a: State, b: State, p: Past, x: SAct)
    requires Renewed(a, b, p) && SEnabled(a, x)
    requires x.TakeError? || x.DropError?
    ensures SEnabled(b, x) && Renewed(SStep(Fast, a, x), SStep(Fast, b, x), p)
  {
  }

  // ------------------------------------------------------------------ receiver steps

  function DownAct(x: RAct, p: Past): RAct {
    DownLabel(R(x), p).ra
  }

  /** Both go the same way. */
  lemma SameMove(a: State, b: State, p: Past, x: RAct)
    requires Tidy(a) && Tidy(b) && Renewed(a, b, p) && REnabled(a, x)
    ensures REnabled(b, DownAct(x, p)) && MoveOf(a, x) == MoveOf(b, DownAct(x, p))
  {
    assert Last(a.c.hist) == Last(b.c.hist);
    if x.Begin? || x.LoadAt? {
      assert a.c.hist[x.i].val == b.c.hist[x.i - p.d].val;
    }
  }

  lemma SameEnd(a: State, b: State, p: Past, m: Move)
    requires Renewed(a, b, p)
    ensures Renewed(Perform(a, m), Perform(b, m), p)
  {
    var out := if m.out.Some? then [m.out.value] else [];
    assert p.log + b.g.log + out == p.log + (b.g.log + out);
  }

  lemma SameTick(a: State, b: State, p: Past, x: RAct)
    requires Tidy(a) && Tidy(b) && Renewed(a, b, p) && REnabled(a, x) && REnabled(b, DownAct(x, p))
    ensures REnabled(Tick(a, ReceiverSide), x) && REnabled(Tick(b, ReceiverSide), DownAct(x, p))
    ensures Tidy(Tick(a, ReceiverSide)) && Tidy(Tick(b, ReceiverSide))
    ensures Renewed(Tick(a, ReceiverSide), Tick(b, ReceiverSide), p)
  {
  }

  lemma SameRead(a: State, b: State, p: Past, x: RAct)
    requires Tidy(a) && Tidy(b) && Renewed(a, b, p) && REnabled(a, x) && REnabled(b, DownAct(x, p)) && (x.Begin? || x.LoadAt?)
    ensures Renewed(Effect(a, x), Effect(b, DownAct(x, p)), p)
  {
  }

  lemma SameWrite(a: State, b: State, p: Past, x: RAct)
    requires Tidy(a) && Tidy(b) && Renewed(a, b, p) && REnabled(a, x) && REnabled(b, x) && (x.Swap? || x.StoreByte?)
    ensures Renewed(Effect(a, x), Effect(b, x), p)
  {
  }

  lemma SamePut(a: State, b: State, p: Past, x: RAct)
    requires Renewed(a, b, p) && REnabled(a, x) && REnabled(b, x) && (x.PutWaker? || x.DiscardWaker?)
    requires x.PutWaker?
    ensures Renewed(Effect(a, x), Effect(b, x), p)
  {
  }

  lemma SameDiscard(a: State, b: State, p: Past, x: RAct)
    requires Renewed(a, b, p) && REnabled(a, x) && REnabled(b, x) && (x.PutWaker? || x.DiscardWaker?)
    requires x.DiscardWaker?
    ensures Renewed(Effect(a, x), Effect(b, x), p)
  {
  }

  lemma SameWaker(a: State, b: State, p: Past, x: RAct)
    requires Renewed(a, b, p) && REnabled(a, x) && REnabled(b, x) && (x.PutWaker? || x.DiscardWaker?)
    ensures Renewed(Effect(a, x), Effect(b, x), p)
  {
    if x.PutWaker? {
      SamePut(a, b, p, x);
    } else {
      SameDiscard(a, b, p, x);
    }
  }

  lemma SameTake(a: State, b: State, p: Past, x: RAct)
    requires Renewed(a, b, p) && REnabled(a, x) && REnabled(b, x) && (x.TakeMessage? || x.DiscardMessage?)
    requires x.TakeMessage?
    ensures Renewed(Effect(a, x), Effect(b, x), p)
  {
  }

  lemma SameDropMessage(a: State, b: State, p: Past, x: RAct)
    requires Renewed(a, b, p) && REnabled(a, x) && REnabled(b, x) && (x.TakeMessage? || x.DiscardMessage?)
    requires x.DiscardMessage?
    ensures Renewed(Effect(a, x), Effect(b, x), p)
  {
  }

  lemma SameMessage(a: State, b: State, p: Past, x: RAct)
    requires Renewed(a, b, p) && REnabled(a, x) && REnabled(b, x) && (x.TakeMessage? || x.DiscardMessage?)
    ensures Renewed(Effect(a, x), Effect(b, x), p)
  {
    if x.TakeMessage? {
      SameTake(a, b, p, x);
    } else {
      SameDropMessage(a, b, p, x);
    }
  }

  lemma SameOther(a: State, b: State, p: Past, x: RAct)
    requires Tidy(a) && Tidy(b) && Renewed(a, b, p) && REnabled(a, x) && REnabled(b, x)
    requires x.IntoFuture? || x == Fence || x.FreeCell? || x.WakeSelf? || x.Wake?
    ensures Renewed(Effect(a, x), Effect(b, x), p)
  {
  }

  lemma SameEffect(a: State, b: State, p: Past, x: RAct)
    requires Tidy(a) && Tidy(b) && Renewed(a, b, p) && REnabled(a, x) && REnabled(b, DownAct(x, p))
    ensures Renewed(Effect(a, x), Effect(b, DownAct(x, p)), p)
  {
    if x.Begin? || x.LoadAt? {
      SameRead(a, b, p, x);
    } else if x.Swap? || x.StoreByte? {
      SameWrite(a, b, p, x);
    } else if x.PutWaker? || x.DiscardWaker? {
      SameWaker(a, b, p, x);
    } else if x.TakeMessage? || x.DiscardMessage? {
      SameMessage(a, b, p, x);
    } else {
      SameOther(a, b, p, x);
    }
  }

  lemma RenewedReceiver(a: State, b: State, p: Past, x: RAct)
    requires Tidy(a) && Tidy(b) && Renewed(a, b, p) && REnabled(a, x)
    ensures REnabled(b, DownAct(x, p)) && Renewed(RStep(a, x), RStep(b, DownAct(x, p)), p)
  {
    SameMove(a, b, p, x);
    SameTick(a, b, p, x);
    var a', b' := Tick(a, ReceiverSide), Tick(b, ReceiverSide);
    SameEffect(a', b', p, x);
    SameEnd(Effect(a', x), Effect(b', DownAct(x, p)), p, MoveOf(a, x));
  }

  lemma RenewedSender(a: State, b: State, p: Past, x: SAct)
    requires Tidy(a) && Tidy(b) && ClosedSeen(a) && Renewed(a, b, p) && SEnabled(a, x)
    ensures var y := DownLabel(S(x), p).sa; SEnabled(b, y) && Renewed(SStep(Fast, a, x), SStep(Fast, b, y), p)
  {
    match x {
      case SIsClosed(i) => RenewedIsClosed(a, b, p, i);
      case FetchAdd => RenewedFirst(a, b, p, x);
      case FetchXor => RenewedFirst(a, b, p, x);
      case Unpark => RenewedUnpark(a, b, p);
      case WriteMessage(_) => RenewedWaking(a, b, p, x);
      case TakeWaker => RenewedWaking(a, b, p, x);
      case FinalSwap => RenewedWaking(a, b, p, x);
      case TakeError => RenewedError(a, b, p, x);
      case DropError => RenewedError(a, b, p, x);
      case _ => RenewedOwner(a, b, p, x);
    }
  }

  lemma RenewedStep(a: State, b: State, p: Past, l: Label)
    requires Tidy(a) && Tidy(b) && ClosedSeen(a) && Renewed(a, b, p) && Enabled(a, l)
    ensures Enabled(b, DownLabel(l, p)) && Renewed(Step(Fast, a, l), Step(Fast, b, DownLabel(l, p)), p)
    ensures Tidy(Step(Fast, b, DownLabel(l, p)))
  {
    match l {
      case S(x) => RenewedSender(a, b, p, x); TidySender(Fast, b, DownLabel(l, p).sa);
      case R(x) => RenewedReceiver(a, b, p, x); TidyReceiver(b, DownAct(x, p));
    }
  }

  /** Whatever the fresh channel can do, the used one can. */
  lemma RenewedEnabled(a: State, b: State, p: Past, l: Label)
    requires Tidy(a) && Tidy(b) && Renewed(a, b, p) && Enabled(b, l)
    ensures Enabled(a, UpLabel(l, p)) && DownLabel(UpLabel(l, p), p) == l
  {
    assert Last(a.c.hist) == Last(b.c.hist);
    if l.R? && l.ra.LoadAt? {
      assert a.c.hist[l.ra.i + p.d].val == b.c.hist[l.ra.i].val;
    }
  }

  // ----------------------------------------------------------------------- whole runs

  function Downs(run: seq<Label>, p: Past): seq<Label> {
    if run == [] then [] else [DownLabel(run[0], p)] + Downs(run[1..], p)
  }

  function Ups(run: seq<Label>, p: Past): seq<Label> {
    if run == [] then [] else [UpLabel(run[0], p)] + Ups(run[1..], p)
  }

  /** A run in which no async drop's swap returned UNPARKING. */
  ghost predicate Unbroken(st: State, run: seq<Label>) {
    Runs(Fast, st, run) && !After(Fast, st, run).g.broken
  }

  lemma UnbrokenStep(st: State, run: seq<Label>)
    requires Unbroken(st, run) && run != []
    ensures Unbroken(Step(Fast, st, run[0]), run[1..]) && !Step(Fast, st, run[0]).g.broken
  {
    if Step(Fast, st, run[0]).g.broken {
      StaysBroken(Fast, Step(Fast, st, run[0]), run[1..]);
    }
  }

  lemma {:induction false} DownRun(a: State, b: State, p: Past, run: seq<Label>)
    requires Good(a) && Tidy(b) && Renewed(a, b, p) && Unbroken(a, run)
    ensures Runs(Fast, b, Downs(run, p)) && Renewed(After(Fast, a, run), After(Fast, b, Downs(run, p)), p)
    decreases |run|
  {
    if run != [] {
      UnbrokenStep(a, run);
      GoodStep(Fast, a, run[0]);
      RenewedStep(a, b, p, run[0]);
      var b' := Step(Fast, b, DownLabel(run[0], p));
      DownRun(Step(Fast, a, run[0]), b', p, run[1..]);
      RunCons(Fast, b, DownLabel(run[0], p), Downs(run[1..], p));
    }
  }

  lemma {:induction false} UpRun(a: State, b: State, p: Past, run: seq<Label>)
    requires Good(a) && Tidy(b) && Renewed(a, b, p) && Unbroken(b, run)
    ensures Runs(Fast, a, Ups(run, p)) && Renewed(After(Fast, a, Ups(run, p)), After(Fast, b, run), p)
    decreases |run|
  {
    if run != [] {
      var l := UpLabel(run[0], p);
      RenewedEnabled(a, b, p, run[0]);
      RenewedStep(a, b, p, l);
      UnbrokenStep(b, run);
      GoodStep(Fast, a, l);
      UpRun(Step(Fast, a, l), Step(Fast, b, run[0]), p, run[1..]);
      RunCons(Fast, a, l, Ups(run[1..], p));
    }
  }

  // ------------------------------------------------------------- after a Timeout or Empty

  predicate NothingYet(log: seq<Outcome>) {
    log != [] && (log[|log| - 1].Timeout? || log[|log| - 1].Empty?)
  }

  /** What the receiver last read, and that it lags at most one write behind a quiet sender. */
  predicate LastRead(st: State) {
    st.rv.cur.pos < |st.c.hist| &&
    (Quiet(st) ==> |st.c.hist| <= st.rv.cur.pos + 2) &&
    (st.g.tokens.Keys != {} ==> st.s.SFinished? && st.s.woke) &&
    (st.r.RTail? && st.r.todo == TimedOut ==> st.c.hist[st.rv.cur.pos].val == EMPTY) &&
    (st.r.RIdle? && NothingYet(st.g.log) ==> st.c.hist[st.rv.cur.pos].val == EMPTY)
  }

  lemma LastReadSender(st: State, a: SAct)
    requires Tidy(st) && Control(st) && LastRead(st) && SEnabled(st, a)
    ensures LastRead(SStep(Fast, st, a))
  {
  }

  lemma LastReadBegin(st: State, a: RAct)
    requires Tidy(st) && Control(st) && LastRead(st) && REnabled(st, a) && a.Begin?
    ensures LastRead(RStep(st, a))
  {
    ReceiverFrame(st, a);
  }

  lemma LastReadLoad(st: State, a: RAct)
    requires Tidy(st) && Control(st) && LastRead(st) && REnabled(st, a) && a.LoadAt?
    ensures LastRead(RStep(st, a))
  {
    ReceiverFrame(st, a);
  }

  lemma LastReadSwap(st: State)
    requires Tidy(st) && Control(st) && LastRead(st) && REnabled(st, Swap)
    ensures LastRead(RStep(st, Swap))
  {
    ReceiverFrame(st, Swap);
  }

  lemma LastReadTail(st: State, a: RAct)
    requires Tidy(st) && Control(st) && LastRead(st) && REnabled(st, a) && !a.Begin? && !a.LoadAt? && !a.Swap?
    requires st.r.RTail?
    ensures LastRead(RStep(st, a))
  {
    ReceiverFrame(st, a);
  }

  lemma LastReadRest(st: State, a: RAct)
    requires Tidy(st) && Control(st) && LastRead(st) && REnabled(st, a) && !a.Begin? && !a.LoadAt? && !a.Swap?
    requires !st.r.RTail?
    ensures LastRead(RStep(st, a))
  {
    ReceiverFrame(st, a);
  }

  lemma LastReadOther(st: State, a: RAct)
    requires Tidy(st) && Control(st) && LastRead(st) && REnabled(st, a) && !a.Begin? && !a.LoadAt? && !a.Swap?
    ensures LastRead(RStep(st, a))
  {
    if st.r.RTail? {
      LastReadTail(st, a);
    } else {
      LastReadRest(st, a);
    }
  }

  lemma LastReadReceiver(st: State, a: RAct)
    requires Tidy(st) && Control(st) && LastRead(st) && REnabled(st, a)
    ensures LastRead(RStep(st, a))
  {
    if a.Begin? {
      LastReadBegin(st, a);
    } else if a.LoadAt? {
      LastReadLoad(st, a);
    } else if a.Swap? {
      LastReadSwap(st);
    } else {
      LastReadOther(st, a);
    }
  }

  lemma LastReadStep(st: State, l: Label)
    requires Tidy(st) && Control(st) && LastRead(st) && Enabled(st, l)
    ensures LastRead(Step(Fast, st, l))
  {
    match l {
      case S(a) => LastReadSender(st, a);
      case R(a) => LastReadReceiver(st, a);
    }
  }

  lemma {:induction false} LastReadRun(st: State, run: seq<Label>)
    requires Good(st) && LastRead(st) && Unbroken(st, run)
    ensures Good(After(Fast, st, run)) && LastRead(After(Fast, st, run))
    decreases |run|
  {
    if run != [] {
      UnbrokenStep(st, run);
      LastReadStep(st, run[0]);
      GoodStep(Fast, st, run[0]);
      LastReadRun(Step(Fast, st, run[0]), run[1..]);
    }
  }

  /** What the sender has done so far, as steps from a fresh channel. */
  function SenderSoFar(st: State): seq<Label> {
    match st.s
    case SAlive => []
    case SPublish => if st.g.sent.Some? then [S(WriteMessage(st.g.sent.value))] else []
    case _ =>
      if st.g.sent.Some? then [S(WriteMessage(st.g.sent.value)), S(FetchAdd)] else [S(FetchXor)]
  }

  function PastOf(st: State): Past {
    Past(st.rv.cur.pos, st.g.wakers, st.g.log, st.g.slog, st.g.wakes)
  }

  /** The receiver's last call found nothing, and no other call is running. */
  predicate EmptyHanded(st: State) {
    st.r == RIdle(false) && NothingYet(st.g.log)
  }

  /** The sender has at most written the message: the channel is open, with no waker stored. */
  lemma AsNewOpen(st: State)
    requires Good(st) && LastRead(st) && EmptyHanded(st) && Before(st)
    ensures Runs(Fast, Init, SenderSoFar(st)) && Renewed(st, After(Fast, Init, SenderSoFar(st)), PastOf(st))
    ensures Tidy(After(Fast, Init, SenderSoFar(st)))
  {
    if st.s.SPublish? {
      RunSnoc(Fast, Init, [], S(WriteMessage(st.g.sent.value)));
      assert [] + SenderSoFar(st) == SenderSoFar(st);
    }
  }

  lemma QuietlyLeft(st: State)
    requires Good(st) && LastRead(st) && EmptyHanded(st) && !Before(st)
    ensures Quiet(st) && |st.c.hist| == st.rv.cur.pos + 2 && st.g.sendOk.Some? == st.g.sent.Some? == Sending(st.s)
    ensures st.g.polled.None? && !st.g.lax && st.c.live && st.g.fates == []
  {
  }

  /** A channel on which nothing but a send has happened. */
  function Sent(m: Message): State {
    Init.(c := Init.c.(hist := [Write(EMPTY, Bottom), Write(MESSAGE, View(2, 0, 1))], msg := Some(m),
                       msgAcc := Access(1, 0), cellAcc := Access(2, 0)),
          s := SFinished(true, false), sv := Local(View(2, 0, 1), Bottom),
          g := Init.g.(sent := Some(m), sendOk := Some(true)))
  }

  lemma ReachesSent(m: Message)
    ensures Runs(Fast, Init, [S(WriteMessage(m)), S(FetchAdd)])
    ensures After(Fast, Init, [S(WriteMessage(m)), S(FetchAdd)]) == Sent(m)
  {
    var w := S(WriteMessage(m));
    RunCons(Fast, Step(Fast, Init, w), S(FetchAdd), []);
    RunCons(Fast, Init, w, [S(FetchAdd)]);
  }

  /** A channel on which nothing but the sender's drop has happened. */
  const Abandoned := Init.(
    c := Init.c.(hist := [Write(EMPTY, Bottom), Write(DISCONNECTED, View(1, 0, 1))], cellAcc := Access(1, 0)),
    s := SFinished(false, false), sv := Local(View(1, 0, 1), Bottom))

  lemma ReachesAbandoned()
    ensures Runs(Fast, Init, [S(FetchXor)]) && After(Fast, Init, [S(FetchXor)]) == Abandoned
  {
    RunCons(Fast, Init, S(FetchXor), []);
  }

  lemma LikeLeft(st: State)
    requires Good(st) && LastRead(st) && EmptyHanded(st) && !Before(st)
    ensures var b := if st.g.sent.Some? then Sent(st.g.sent.value) else Abandoned;
      Renewed(st, b, PastOf(st)) && Tidy(b)
  {
    QuietlyLeft(st);
  }

  /** The sender has since come and gone. */
  lemma AsNewLeft(st: State)
    requires Good(st) && LastRead(st) && EmptyHanded(st) && !Before(st)
    ensures Runs(Fast, Init, SenderSoFar(st)) && Renewed(st, After(Fast, Init, SenderSoFar(st)), PastOf(st))
    ensures Tidy(After(Fast, Init, SenderSoFar(st)))
  {
    LikeLeft(st);
    if st.g.sent.Some? {
      ReachesSent(st.g.sent.value);
    } else {
      ReachesAbandoned();
    }
  }

  predicate SendersOnly(run: seq<Label>) {
    forall i :: 0 <= i < |run| ==> run[i].S?
  }

  /** After any run whose last call returned Timeout or Empty no waker is stored, and there is
      a fresh channel, on which at most the sender has moved, that can do all the used one can,
      and no more, with the same results from then on. */
  lemma GoodAsNew(run: seq<Label>) returns (start: seq<Label>, p: Past)
    requires Unbroken(Init, run) && EmptyHanded(After(Fast, Init, run))
    ensures After(Fast, Init, run).c.waker.None?
    ensures SendersOnly(start) && Runs(Fast, Init, start) && p.log == After(Fast, Init, run).g.log
    ensures var used, anew := After(Fast, Init, run), After(Fast, Init, start);
      (forall more :: Unbroken(used, more) ==>
        Runs(Fast, anew, Downs(more, p)) &&
        Renewed(After(Fast, used, more), After(Fast, anew, Downs(more, p)), p)) &&
      (forall more :: Unbroken(anew, more) ==>
        Runs(Fast, used, Ups(more, p)) &&
        Renewed(After(Fast, used, Ups(more, p)), After(Fast, anew, more), p))
  {
    GoodInit();
    LastReadRun(Init, run);
    var used := After(Fast, Init, run);
    start, p := SenderSoFar(used), PastOf(used);
    if Before(used) { AsNewOpen(used); } else { AsNewLeft(used); }
    var anew := After(Fast, Init, start);
    forall more | Unbroken(used, more)
      ensures Runs(Fast, anew, Downs(more, p)) && Renewed(After(Fast, used, more), After(Fast, anew, Downs(more, p)), p)
    {
      DownRun(used, anew, p, more);
    }
    forall more | Unbroken(anew, more)
      ensures Runs(Fast, used, Ups(more, p)) && Renewed(After(Fast, used, Ups(more, p)), After(Fast, anew, more), p)
    {
      UpRun(used, anew, p, more);
    }
  }
}
