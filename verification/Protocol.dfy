/**
 The two-party protocol behind one oneshot channel, as a transition system.

 Each endpoint has a program counter; every atomic operation on the state byte, every
 access to the message or waker slot, every park, unpark and deallocation is one step.
 Nothing is assumed to go well: an access that would be undefined behaviour, a race, a
 leak or an `unreachable!()` records a fault and the run goes on.
 */
module Protocol {
  import opened States
  import opened Memory

  type Message(==, !new)

  datatype Option<+T> = None | Some(value: T)

  datatype Party = SenderSide | ReceiverSide

  /** Whom a waker wakes: a blocked thread or an async task. */
  datatype Who = Thread(id: nat) | Task(id: nat)

  /** When each side last touched a location, on that side's own clock. */
  datatype Access = Access(s: nat, r: nat)

  /** The heap allocation. The state byte is kept as its whole modification order; a slot
      is `None` while it is logically uninitialised. */
  datatype Cell = Cell(
    hist: seq<Write>, msg: Option<Message>, waker: Option<nat>,
    msgAcc: Access, wakAcc: Access, cellAcc: Access, live: bool)

  // ----------------------------------------------------------------- sender side

  datatype SPc =
    | SAlive                                    // a `Sender` exists
    | SPublish                                  // send: message written, before fetch_add
    | STakeWaker(sending: bool)                 // saw RECEIVING, before take_waker
    | SFinalSwap(sending: bool, w: nat)         // holds waker `w`, before the final swap
    | SUnpark(sending: bool, w: nat)            // final state written, before unpark
    | SFinished(sending: bool, woke: bool)      // left the channel to the receiver
    | SError                                    // a `SendError` owns the channel
    | SErrorFree                                // its message is gone, before dealloc
    | SDropFree                                 // sender drop saw DISCONNECTED, before dealloc
    | SReleased(failed: bool)                   // freed the channel
    | SPanic                                    // hit unreachable!() or an empty waker slot

  datatype SAct =
    | SIsClosed(i: nat)
    | WriteMessage(m: Message)
    | FetchAdd
    | FetchXor
    | TakeWaker
    | FinalSwap
    | Unpark
    | PeekError
    | TakeError
    | DropError
    | SFree

  // --------------------------------------------------------------- receiver side

  datatype Op =
    | TryRecv
    | Recv(thread: nat)
    | RecvRef(thread: nat)
    | RecvDeadline(thread: nat)
    | Poll(task: nat)
    | IsClosed
    | HasMessage
    | Drop(async: bool)

  /** What a call hands back to its caller. */
  datatype Outcome =
    | Got(m: Message)
    | Empty
    | Timeout
    | Pending
    | Disconnected
    | Closed(b: bool)
    | Has(b: bool)

  /** The straight-line rest of a call, executed in the order of the fields. */
  datatype Todo = Todo(
    dropWaker: bool, store: bool, fence: bool, take: bool, dropMsg: bool, free: bool,
    out: Option<Outcome>)

  datatype RPc =
    | RIdle(async: bool)              // a `Receiver` or `AsyncReceiver` exists, no call runs
    | RWrite(op: Op)                  // before write_waker
    | RArm(op: Op)                    // before moving the state to RECEIVING
    | RPark(op: Op)                   // at the top of the park loop
    | RCheck(op: Op)                  // woken, before the load
    | RWaitPark(op: Op, woken: bool)  // wait_for_unpark, before park
    | RWaitCheck(op: Op, woken: bool) // wait_for_unpark, before the load
    | RReplace(op: Op)                // poll saw RECEIVING, before the compare_exchange
    | RReplaceDrop(op: Op)            // poll owns the old waker, before dropping it
    | RSelfWake(op: Op)               // poll lost to UNPARKING, before wake_by_ref
    | RSpin(op: Op)                   // poll spins on UNPARKING
    | RDropCas                        // async drop saw RECEIVING, before the compare_exchange
    | RDropOld                        // async drop owns the waker, before dropping it
    | RDropSwap                       // async drop, before the final swap
    | RDropSpin                       // async drop, UNPARKING arm
    | RDropSpinMsg                    // same, before drop_message
    | RTail(op: Op, todo: Todo)
    | RDone
    | RPanic

  /** One primitive operation each; the program counter says which one it is. */
  datatype RAct =
    | Begin(op: Op, i: nat)     // the first load of a call, reading entry `i`
    | IntoFuture
    | LoadAt(i: nat)            // a later load, or a failing compare_exchange, reading entry `i`
    | Swap                      // a swap or a successful compare_exchange
    | PutWaker
    | DiscardWaker
    | StoreByte                 // the relaxed store of DISCONNECTED
    | Fence
    | TakeMessage
    | DiscardMessage
    | FreeCell
    | WakeSelf
    | Wake(spurious: bool)      // park returns

  datatype Label = S(sa: SAct) | R(ra: RAct)

  // ---------------------------------------------------------------------- ledger

  datatype Fate =
    | Received(m: Message)          // returned by a receive
    | DroppedByReceiver(m: Message)
    | IntoInner(m: Message)         // returned by SendError::into_inner
    | DroppedWithError(m: Message)

  datatype Free = Free(party: Party, byDrop: bool, ordered: bool)

  datatype FaultKind =
    | UseAfterFree
    | DoubleFree
    | Uninit           // a take, read or drop of an uninitialised slot
    | Overwrite        // a write over a live message or waker
    | Race             // an access to a slot not ordered after the other side's
    | Misplaced        // a plain store not forced to be last in the modification order
    | Unreachable      // an unreachable!() arm

  datatype Ledger = Ledger(
    sent: Option<Message>, fates: seq<Fate>, sendOk: Option<bool>,
    wakers: seq<Who>, dropped: multiset<nat>, unparked: multiset<nat>,
    wakes: seq<Who>, tokens: map<nat, View>,
    frees: seq<Free>, faults: set<FaultKind>,
    log: seq<Outcome>, slog: seq<bool>,
    mark: nat, polled: Option<nat>, // wakes made before the last poll; its task if it was left pending
    lax: bool,                      // wait_for_unpark took the message on a spurious wakeup
    broken: bool)                   // async drop's swap returned UNPARKING

  datatype State = State(c: Cell, s: SPc, sv: Local, r: RPc, rv: Local, g: Ledger)

  const NoAccess := Access(0, 0)
  const Fresh := Local(Bottom, Bottom)

  /** `channel()`: an EMPTY byte and two uninitialised slots. */
  const Init := State(
    Cell([Write(EMPTY, Bottom)], None, None, NoAccess, NoAccess, NoAccess, true),
    SAlive, Fresh, RIdle(false), Fresh,
    Ledger(None, [], None, [], multiset{}, multiset{}, [], map[], [], {}, [], [], 0, None, false, false))

  // ------------------------------------------------------------- primitive steps

  function Check(st: State, kind: FaultKind, ok: bool): State {
    st.(g := st.g.(faults := st.g.faults + (if ok then {} else {kind})))
  }

  /** Each step advances its party's own clock. */
  function Tick(st: State, p: Party): State {
    match p
    case SenderSide => st.(sv := st.sv.(cur := st.sv.cur.(s := st.sv.cur.s + 1)))
    case ReceiverSide => st.(rv := st.rv.(cur := st.rv.cur.(r := st.rv.cur.r + 1)))
  }

  function Stamp(st: State, p: Party, a: Access): Access {
    match p
    case SenderSide => a.(s := st.sv.cur.s)
    case ReceiverSide => a.(r := st.rv.cur.r)
  }

  /** `p` knows of every access the other side made to a location. */
  predicate Ordered(st: State, p: Party, a: Access) {
    match p
    case SenderSide => a.r <= st.sv.cur.r
    case ReceiverSide => a.s <= st.rv.cur.s
  }

  /** Any dereference of the channel pointer. */
  function Use(st: State, p: Party): State {
    Check(st.(c := st.c.(cellAcc := Stamp(st, p, st.c.cellAcc))), UseAfterFree, st.c.live)
  }

  function UseMessage(st: State, p: Party): State {
    var u := Use(st, p);
    Check(u.(c := u.c.(msgAcc := Stamp(st, p, st.c.msgAcc))), Race, Ordered(st, p, st.c.msgAcc))
  }

  function UseWaker(st: State, p: Party): State {
    var u := Use(st, p);
    Check(u.(c := u.c.(wakAcc := Stamp(st, p, st.c.wakAcc))), Race, Ordered(st, p, st.c.wakAcc))
  }

  function Load(st: State, p: Party, i: nat, o: Order): State
    requires i < |st.c.hist|
  {
    var u := Use(st, p);
    match p
    case SenderSide => u.(sv := Observe(st.sv, st.c.hist, i, o))
    case ReceiverSide => u.(rv := Observe(st.rv, st.c.hist, i, o))
  }

  function Rmw(st: State, p: Party, v: Byte, o: Order): State
    requires st.c.hist != []
  {
    var u := Use(st, p);
    match p
    case SenderSide =>
      u.(sv := Exchanged(st.sv, st.c.hist, o), c := u.c.(hist := Exchange(st.sv, st.c.hist, v, o)))
    case ReceiverSide =>
      u.(rv := Exchanged(st.rv, st.c.hist, o), c := u.c.(hist := Exchange(st.rv, st.c.hist, v, o)))
  }

  /** The receiver's relaxed store of DISCONNECTED. */
  function StoreDisconnected(st: State): State {
    var u := Use(st, ReceiverSide);
    Check(u.(rv := Stored(st.rv, st.c.hist), c := u.c.(hist := Store(st.c.hist, DISCONNECTED))),
          Misplaced, st.rv.cur.pos == |st.c.hist| - 1)
  }

  function WriteWakerSlot(st: State, who: Who): State {
    var u := Check(UseWaker(st, ReceiverSide), Overwrite, st.c.waker.None?);
    u.(c := u.c.(waker := Some(|st.g.wakers|)), g := u.g.(wakers := st.g.wakers + [who]))
  }

  function Held(w: Option<nat>): multiset<nat> {
    if w.Some? then multiset{w.value} else multiset{}
  }

  function DropWakerSlot(st: State): State {
    var u := Check(UseWaker(st, ReceiverSide), Uninit, st.c.waker.Some?);
    u.(c := u.c.(waker := None), g := u.g.(dropped := st.g.dropped + Held(st.c.waker)))
  }

  /** Takes the message out of its slot towards `fate`. */
  function EmptyMessageSlot(st: State, p: Party, fate: Message -> Fate): State {
    var u := Check(UseMessage(st, p), Uninit, st.c.msg.Some?);
    u.(c := u.c.(msg := None),
       g := u.g.(fates := st.g.fates + (if st.c.msg.Some? then [fate(st.c.msg.value)] else [])))
  }

  function Dealloc(st: State, p: Party, byDrop: bool): State {
    var u := Check(st, DoubleFree, st.c.live);
    u.(c := u.c.(live := false),
       g := u.g.(frees := st.g.frees + [Free(p, byDrop, Ordered(st, p, st.c.cellAcc))]))
  }

  // ----------------------------------------------------------------- sender steps

  predicate SEnabled(st: State, a: SAct) {
    st.c.hist != [] &&
    match a
    case SIsClosed(i) => st.s.SAlive? && st.sv.cur.pos <= i < |st.c.hist|
    case WriteMessage(_) => st.s.SAlive?
    case FetchAdd => st.s.SPublish?
    case FetchXor => st.s.SAlive?
    case TakeWaker => st.s.STakeWaker?
    case FinalSwap => st.s.SFinalSwap?
    case Unpark => st.s.SUnpark? && st.s.w < |st.g.wakers|
    case PeekError => st.s.SError?
    case TakeError => st.s.SError?
    case DropError => st.s.SError?
    case SFree => st.s.SErrorFree? || st.s.SDropFree?
  }

  /** The match of `send` and of `Drop for Sender` on the byte their first update replaced. */
  function SenderMatch(was: Byte, sending: bool): SPc {
    if was == EMPTY then SFinished(sending, false)
    else if was == RECEIVING then STakeWaker(sending)
    else if was == DISCONNECTED then if sending then SError else SDropFree
    else SPanic
  }

  /** What `send` hands back once it reaches `s`. */
  function SendResult(s: SPc): Option<bool> {
    if s.SFinished? && s.sending then Some(true) else if s.SError? then Some(false) else None
  }

  /** The sender's first update of the state. */
  function FirstUpdate(st: State, v: Byte, sending: bool): State
    requires st.c.hist != []
  {
    var s := SenderMatch(Last(st.c.hist), sending);
    var u := Check(Rmw(st, SenderSide, v, AcqRel), Unreachable, !s.SPanic?);
    u.(s := s, g := u.g.(sendOk := SendResult(s)))
  }

  function SStep(how: Arithmetic, st0: State, a: SAct): State
    requires SEnabled(st0, a)
  {
    var st := Tick(st0, SenderSide);
    match a
    case SIsClosed(i) =>
      var u := Load(st, SenderSide, i, Relaxed);
      u.(g := u.g.(slog := u.g.slog + [st.c.hist[i].val == DISCONNECTED]))
    case WriteMessage(m) =>
      var u := Check(UseMessage(st, SenderSide), Overwrite, st.c.msg.None?);
      u.(s := SPublish, c := u.c.(msg := Some(m)), g := u.g.(sent := Some(m)))
    case FetchAdd =>
      FirstUpdate(st, AfterSend(how, Last(st.c.hist)), true)
    case FetchXor =>
      FirstUpdate(st, AfterDrop(how, Last(st.c.hist)), false)
    case TakeWaker =>
      var u := Check(UseWaker(st, SenderSide), Uninit, st.c.waker.Some?);
      u.(s := if st.c.waker.Some? then SFinalSwap(st.s.sending, st.c.waker.value) else SPanic,
         c := u.c.(waker := None))
    case FinalSwap =>
      var u := Rmw(st, SenderSide, if st.s.sending then MESSAGE else DISCONNECTED, AcqRel);
      u.(s := SUnpark(st.s.sending, st.s.w))
    case Unpark =>
      // consumes the waker; touches the channel no more
      var w := st.s.w;
      var who := st.g.wakers[w];
      var s := SFinished(st.s.sending, true);
      st.(s := s,
          g := st.g.(unparked := st.g.unparked + multiset{w},
                     wakes := st.g.wakes + [who],
                     tokens := if who.Thread? then st.g.tokens[who.id := st.sv.cur] else st.g.tokens,
                     sendOk := SendResult(s)))
    case PeekError =>
      Check(UseMessage(st, SenderSide), Uninit, st.c.msg.Some?)
    case TakeError =>
      EmptyMessageSlot(st, SenderSide, m => IntoInner(m)).(s := SErrorFree)
    case DropError =>
      EmptyMessageSlot(st, SenderSide, m => DroppedWithError(m)).(s := SErrorFree)
    case SFree =>
      Dealloc(st, SenderSide, true).(s := SReleased(st.s.SErrorFree?))
  }

  // ------------------------------------------------------- receiver control flow

  const Nothing := Todo(false, false, false, false, false, false, None)

  predicate Consuming(op: Op) {
    op.Recv? || op.Drop?
  }

  predicate OpAsync(op: Op) {
    op.Poll? || op == Drop(true)
  }

  predicate Blocking(op: Op) {
    op.Recv? || op.RecvRef? || op.RecvDeadline?
  }

  function OpThread(op: Op): nat {
    match op
    case Recv(t) => t
    case RecvRef(t) => t
    case RecvDeadline(t) => t
    case _ => 0
  }

  function OpWho(op: Op): Who {
    if op.Poll? then Task(op.task) else Thread(OpThread(op))
  }

  /** Where a call goes next: the new program counter, what it hands back if it returns,
      and whether it avoided `unreachable!()`, took the message in wait_for_unpark without
      having been unparked, or dropped an async receiver over UNPARKING. */
  datatype Move = Move(r: RPc, out: Option<Outcome>, ok: bool, lax: bool, broken: bool)

  function Go(r: RPc): Move {
    Move(r, None, true, false, false)
  }

  const Crash := Move(RPanic, None, false, false, false)

  function Return(op: Op, async: bool, out: Option<Outcome>): Move {
    Move(if Consuming(op) then RDone else RIdle(async), out, true, false, false)
  }

  predicate Finished(t: Todo) {
    !t.dropWaker && !t.store && !t.fence && !t.take && !t.dropMsg && !t.free
  }

  /** Goes on with the rest of the call, or returns if nothing is left. */
  function Rest(op: Op, t: Todo): Move {
    if Finished(t) then Return(op, OpAsync(op), t.out) else Go(RTail(op, t))
  }

  function ReturnDisconnected(op: Op): Move {
    Return(op, OpAsync(op), Some(Disconnected))
  }

  const StoreFenceTake := Nothing.(store := true, fence := true, take := true)
  const StoreTake := Nothing.(store := true, take := true)

  /** The match of each call on the byte its first load returned. */
  function BeginMatch(op: Op, async: bool, v: Byte): Move {
    match op
    case IsClosed => Return(op, async, Some(Closed(v == DISCONNECTED)))
    case HasMessage => Return(op, async, Some(Has(v == MESSAGE)))
    case Drop(_) => Go(if v == RECEIVING then RDropCas else RDropSwap)
    case TryRecv =>
      if v == MESSAGE then Rest(op, StoreFenceTake)
      else if v == EMPTY then Return(op, async, Some(Empty))
      else if v == DISCONNECTED then ReturnDisconnected(op)
      else Crash
    case Recv(_) =>
      if v == EMPTY then Go(RWrite(op))
      else if v == MESSAGE then Rest(op, Nothing.(fence := true, take := true, free := true))
      else if v == DISCONNECTED then
        Rest(op, Nothing.(fence := true, free := true, out := Some(Disconnected)))
      else Crash
    case Poll(_) =>
      if v == EMPTY then Go(RWrite(op))
      else if v == RECEIVING then Go(RReplace(op))
      else if v == MESSAGE then Rest(op, StoreFenceTake)
      else if v == DISCONNECTED then ReturnDisconnected(op)
      else if v == UNPARKING then Go(RSpin(op))
      else Crash
    case _ => // RecvRef, RecvDeadline
      if v == EMPTY then Go(RWrite(op))
      else if v == MESSAGE then Rest(op, StoreTake)
      else if v == DISCONNECTED then ReturnDisconnected(op)
      else Crash
  }

  /** Replacing EMPTY by RECEIVING: a swap in the blocking calls, a compare_exchange in poll. */
  function ArmMatch(op: Op, was: Byte): Move {
    if was == EMPTY then
      if op.Poll? then Return(op, true, Some(Pending)) else Go(RPark(op))
    else if was == MESSAGE then
      Rest(op, Nothing.(dropWaker := true, store := !op.Recv?, fence := true, take := true, free := op.Recv?))
    else if was == DISCONNECTED then
      Rest(op, Nothing.(dropWaker := true, store := !op.Recv? && !op.Poll?, fence := !op.Poll?,
                        free := op.Recv?, out := Some(Disconnected)))
    else Crash
  }

  /** The load after park in `recv`, `recv_ref` and `recv_deadline`. */
  function CheckMatch(op: Op, v: Byte): Move {
    if v == MESSAGE then
      Rest(op, Nothing.(store := !op.Recv?, take := true, free := op.Recv?))
    else if v == DISCONNECTED then
      Rest(op, Nothing.(free := op.Recv?, out := Some(Disconnected)))
    else if v == RECEIVING || v == UNPARKING then Go(RPark(op))
    else Crash
  }

  /** `recv_deadline`'s swap(EMPTY) once the deadline has passed. */
  function DeadlineMatch(op: Op, was: Byte): Move {
    if was == RECEIVING then
      Rest(op, Nothing.(dropWaker := true, out := Some(Timeout)))
    else if was == MESSAGE then Rest(op, StoreTake)
    else if was == DISCONNECTED then
      Rest(op, Nothing.(store := true, out := Some(Disconnected)))
    else if was == UNPARKING then Go(RWaitPark(op, false))
    else Crash
  }

  function WaitMatch(op: Op, woken: bool, v: Byte): Move {
    if v == MESSAGE then Rest(op, StoreTake).(lax := !woken)
    else if v == DISCONNECTED then ReturnDisconnected(op)
    else if v == EMPTY then Go(RWaitPark(op, woken))
    else Crash
  }

  /** A failed compare_exchange(RECEIVING, EMPTY) in poll. */
  function ReplaceMatch(op: Op, v: Byte): Move {
    if v == MESSAGE then Rest(op, StoreFenceTake)
    else if v == DISCONNECTED then ReturnDisconnected(op)
    else if v == UNPARKING then Go(RSelfWake(op))
    else Crash
  }

  function SpinMatch(op: Op, v: Byte): Move {
    if v == MESSAGE then Rest(op, StoreFenceTake)
    else if v == DISCONNECTED then ReturnDisconnected(op)
    else if v == UNPARKING then Go(RSpin(op))
    else Crash
  }

  function DropMatch(async: bool, was: Byte): Move {
    if was == EMPTY then Go(RDone)
    else if was == MESSAGE then Rest(Drop(async), Nothing.(dropMsg := true, free := true))
    else if was == DISCONNECTED then Rest(Drop(async), Nothing.(free := true))
    else if was == UNPARKING && async then Go(RDropSpin).(broken := true)
    else Crash
  }

  function DropSpinMatch(v: Byte): Move {
    if v == MESSAGE then Go(RDropSpinMsg)
    else if v == DISCONNECTED then Rest(Drop(true), Nothing.(fence := true, free := true))
    else if v == UNPARKING then Go(RDropSpin)
    else Crash
  }

  // --------------------------------------------------------------- receiver steps

  /** The calls each receiver type offers. */
  predicate Offers(async: bool, op: Op) {
    match op
    case Poll(_) => async
    case Drop(a) => a && async
    case IsClosed => true
    case HasMessage => true
    case _ => !async
  }

  function FirstOrder(op: Op): Order {
    if op.RecvRef? || op.RecvDeadline? || op.HasMessage? then Acquire else Relaxed
  }

  predicate Loads(r: RPc, v: Byte) {
    match r
    case RCheck(_) => true
    case RWaitCheck(_, _) => true
    case RSpin(_) => true
    case RDropSpin => true
    case RArm(op) => op.Poll? && v != EMPTY
    case RReplace(_) => v != RECEIVING
    case RDropCas => v != RECEIVING
    case _ => false
  }

  function LoadMatch(r: RPc, v: Byte): Move {
    match r
    case RCheck(op) => CheckMatch(op, v)
    case RWaitCheck(op, woken) => WaitMatch(op, woken, v)
    case RSpin(op) => SpinMatch(op, v)
    case RDropSpin => DropSpinMatch(v)
    case RArm(op) => ArmMatch(op, v)
    case RReplace(op) => ReplaceMatch(op, v)
    case _ => Go(RDropSwap) // RDropCas
  }

  /** The points with a swap or a compare_exchange that can succeed over `v`. At the top of
      `recv_deadline`'s loop the swap means that the deadline has passed, on an idle
      `Receiver` that it is dropped. */
  predicate Swaps(r: RPc, v: Byte) {
    match r
    case RIdle(async) => !async
    case RArm(op) => op.Poll? ==> v == EMPTY
    case RPark(op) => op.RecvDeadline?
    case RReplace(_) => v == RECEIVING
    case RDropCas => v == RECEIVING
    case RDropSwap => true
    case _ => false
  }

  function SwapValue(r: RPc): Byte {
    if r.RArm? then RECEIVING else if r.RIdle? || r.RDropSwap? then DISCONNECTED else EMPTY
  }

  function SwapOrder(r: RPc): Order {
    if r.RArm? then Release else if r.RPark? then Acquire
    else if r.RIdle? || r.RDropSwap? then AcqRel else Relaxed
  }

  function SwapMatch(r: RPc, was: Byte): Move {
    match r
    case RIdle(_) => DropMatch(false, was)
    case RArm(op) => ArmMatch(op, was)
    case RPark(op) => DeadlineMatch(op, was)
    case RReplace(op) => Go(RReplaceDrop(op))
    case RDropCas => Go(RDropOld)
    case _ => DropMatch(true, was) // RDropSwap
  }

  /** The next item of a call's rest. */
  function Head(t: Todo): RAct {
    if t.dropWaker then DiscardWaker
    else if t.store then StoreByte
    else if t.fence then Fence
    else if t.take then TakeMessage
    else if t.dropMsg then DiscardMessage
    else FreeCell
  }

  /** The call's rest without that item. */
  function TailMatch(op: Op, t: Todo, msg: Option<Message>): Move {
    Rest(op,
      if t.dropWaker then t.(dropWaker := false)
      else if t.store then t.(store := false)
      else if t.fence then t.(fence := false)
      else if t.take then t.(take := false, out := if msg.Some? then Some(Got(msg.value)) else None)
      else if t.dropMsg then t.(dropMsg := false)
      else t.(free := false))
  }

  predicate Executes(r: RPc, a: RAct) {
    match r
    case RWrite(_) => a.PutWaker?
    case RReplaceDrop(_) => a.DiscardWaker?
    case RDropOld => a.DiscardWaker?
    case RSelfWake(_) => a.WakeSelf?
    case RDropSpinMsg => a.DiscardMessage?
    case RTail(_, t) => a == Head(t)
    case _ => false
  }

  function NextMatch(r: RPc, msg: Option<Message>): Move {
    match r
    case RWrite(op) => Go(RArm(op))
    case RReplaceDrop(op) => Go(RWrite(op))
    case RDropOld => Go(RDropSwap)
    case RSelfWake(op) => Return(op, true, Some(Pending))
    case RDropSpinMsg => Rest(Drop(true), Nothing.(fence := true, free := true))
    case RTail(op, t) => TailMatch(op, t, msg)
    case _ => Crash
  }

  predicate Readable(st: State, i: nat) {
    st.rv.cur.pos <= i < |st.c.hist|
  }

  predicate REnabled(st: State, a: RAct) {
    st.c.hist != [] &&
    match a
    case Begin(op, i) => st.r.RIdle? && Offers(st.r.async, op) && Readable(st, i)
    case IntoFuture => st.r == RIdle(false)
    case LoadAt(i) => Readable(st, i) && Loads(st.r, st.c.hist[i].val)
    case Swap => Swaps(st.r, Last(st.c.hist))
    case Wake(spurious) =>
      (st.r.RPark? || st.r.RWaitPark?) && (spurious || OpThread(st.r.op) in st.g.tokens)
    case _ => Executes(st.r, a)
  }

  function Perform(st: State, m: Move): State {
    st.(r := m.r,
        g := st.g.(log := st.g.log + (if m.out.Some? then [m.out.value] else []),
                   polled := if m.out == Some(Pending) && (st.r.RArm? || st.r.RSelfWake?) && st.r.op.Poll?
                             then Some(st.r.op.task) else st.g.polled,
                   lax := st.g.lax || m.lax,
                   broken := st.g.broken || m.broken,
                   faults := st.g.faults + (if m.ok then {} else {Unreachable})))
  }

  /** The control flow of a receiver step. */
  function MoveOf(st: State, a: RAct): Move
    requires REnabled(st, a)
  {
    match a
    case Begin(op, i) => BeginMatch(op, st.r.async, st.c.hist[i].val)
    case IntoFuture => Go(RIdle(true))
    case LoadAt(i) => LoadMatch(st.r, st.c.hist[i].val)
    case Swap => SwapMatch(st.r, Last(st.c.hist))
    case Wake(spurious) =>
      Go(if st.r.RPark? then RCheck(st.r.op) else RWaitCheck(st.r.op, st.r.woken || !spurious))
    case _ => NextMatch(st.r, st.c.msg)
  }

  /** The operation of a receiver step on the channel, the clocks and the ledger. */
  function Effect(st: State, a: RAct): State
    requires REnabled(st, a)
  {
    match a
    case Begin(op, i) =>
      var u := Load(st, ReceiverSide, i, FirstOrder(op));
      u.(g := u.g.(mark := if op.Poll? then |u.g.wakes| else u.g.mark,
                   polled := if op.Poll? then None else u.g.polled))
    case IntoFuture => st
    case LoadAt(i) => Load(st, ReceiverSide, i, if st.r.RCheck? then Acquire else Relaxed)
    case Swap => Rmw(st, ReceiverSide, SwapValue(st.r), SwapOrder(st.r))
    case PutWaker => WriteWakerSlot(st, OpWho(st.r.op))
    case DiscardWaker => DropWakerSlot(st)
    case StoreByte => StoreDisconnected(st)
    case Fence => st.(rv := AcquireFence(st.rv))
    case TakeMessage => EmptyMessageSlot(st, ReceiverSide, m => Received(m))
    case DiscardMessage => EmptyMessageSlot(st, ReceiverSide, m => DroppedByReceiver(m))
    case FreeCell => Dealloc(st, ReceiverSide, st.r.op.Drop?)
    case WakeSelf => st.(g := st.g.(wakes := st.g.wakes + [OpWho(st.r.op)]))
    case Wake(spurious) =>
      var t := OpThread(st.r.op);
      if spurious then st else
        st.(rv := st.rv.(cur := Join(st.rv.cur, st.g.tokens[t])), g := st.g.(tokens := st.g.tokens - {t}))
  }

  function RStep(st: State, a: RAct): State
    requires REnabled(st, a)
  {
    Perform(Effect(Tick(st, ReceiverSide), a), MoveOf(st, a))
  }

  // ------------------------------------------------------------------------ runs

  predicate Enabled(st: State, l: Label) {
    match l
    case S(a) => SEnabled(st, a)
    case R(a) => REnabled(st, a)
  }

  function Step(how: Arithmetic, st: State, l: Label): State
    requires Enabled(st, l)
  {
    match l
    case S(a) => SStep(how, st, a)
    case R(a) => RStep(st, a)
  }

  /** `run` can be executed from `st`. */
  predicate Runs(how: Arithmetic, st: State, run: seq<Label>)
    decreases |run|
  {
    run == [] || (Enabled(st, run[0]) && Runs(how, Step(how, st, run[0]), run[1..]))
  }

  /** The state `run` ends in. */
  function After(how: Arithmetic, st: State, run: seq<Label>): State
    requires Runs(how, st, run)
    decreases |run|
  {
    if run == [] then st else After(how, Step(how, st, run[0]), run[1..])
  }

  lemma RunCons(how: Arithmetic, st: State, l: Label, rest: seq<Label>)
    requires Enabled(st, l) && Runs(how, Step(how, st, l), rest)
    ensures Runs(how, st, [l] + rest)
    ensures After(how, st, [l] + rest) == After(how, Step(how, st, l), rest)
  {
    assert ([l] + rest)[1..] == rest;
  }

  lemma {:induction false} RunConcat(how: Arithmetic, st: State, run: seq<Label>, rest: seq<Label>)
    requires Runs(how, st, run) && Runs(how, After(how, st, run), rest)
    ensures Runs(how, st, run + rest)
    ensures After(how, st, run + rest) == After(how, After(how, st, run), rest)
    decreases |run|
  {
    if run == [] {
      assert run + rest == rest;
    } else {
      RunConcat(how, Step(how, st, run[0]), run[1..], rest);
      ConcatCons(how, st, run, rest);
    }
  }

  lemma HeadTail(run: seq<Label>, rest: seq<Label>)
    requires run != []
    ensures run + rest == [run[0]] + (run[1..] + rest)
  {
  }

  lemma ConcatCons(how: Arithmetic, st: State, run: seq<Label>, rest: seq<Label>)
    requires run != [] && Enabled(st, run[0]) && Runs(how, Step(how, st, run[0]), run[1..] + rest)
    ensures Runs(how, st, run + rest)
    ensures After(how, st, run + rest) == After(how, Step(how, st, run[0]), run[1..] + rest)
  {
    RunCons(how, st, run[0], run[1..] + rest);
    HeadTail(run, rest);
  }

  lemma RunSnoc(how: Arithmetic, st: State, run: seq<Label>, l: Label)
    requires Runs(how, st, run) && Enabled(After(how, st, run), l)
    ensures Runs(how, st, run + [l])
    ensures After(how, st, run + [l]) == Step(how, After(how, st, run), l)
  {
    RunCons(how, After(how, st, run), l, []);
    RunConcat(how, st, run, [l]);
  }
}
