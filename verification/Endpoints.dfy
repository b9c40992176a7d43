/**
 The code of the two endpoints, over one channel object. Between any two operations the other
 endpoint makes any number of its own steps; `sys` is the whole two-party system, advanced
 operation by operation, and `trail` the run that led to it. Loads read the newest byte here.
 */
module Endpoints {
  import opened States
  import opened Memory
  import opened Protocol
  import opened Invariant
  import opened LedgerInvariant
  import opened Effects
  import opened Wakeups
  import opened Reachable
  import opened Progress
  import opened Deadline
  import opened Refinement

  /** Step `i` of the trail, reading the newest byte if it reads one. */
  ghost predicate Follows(trail: seq<State>, steps: seq<Label>, i: nat)
    requires i < |steps| < |trail|
  {
    Enabled(trail[i], steps[i]) && Current(trail[i], steps[i]) && trail[i + 1] == Step(Fast, trail[i], steps[i])
  }

  /** The states and the steps of a sequentially consistent run from `channel()`. */
  ghost predicate IsTrail(trail: seq<State>, steps: seq<Label>) {
    |trail| == |steps| + 1 && trail[0] == Init && forall i :: 0 <= i < |steps| ==> Follows(trail, steps, i)
  }

  lemma FrontIsTrail(trail: seq<State>, steps: seq<Label>, n: nat)
    requires IsTrail(trail, steps) && n <= |steps|
    ensures IsTrail(trail[..n + 1], steps[..n])
  {
    var states, labels := trail[..n + 1], steps[..n];
    forall i | 0 <= i < n
      ensures Follows(states, labels, i)
    {
      assert Follows(trail, steps, i);
    }
  }

  /** A trail is a run of the protocol. */
  lemma {:induction false} TrailIsRun(trail: seq<State>, steps: seq<Label>)
    requires IsTrail(trail, steps)
    ensures Runs(Fast, Init, steps) && Consistent(Fast, Init, steps) && After(Fast, Init, steps) == trail[|steps|]
    decreases |steps|
  {
    if steps != [] {
      var n := |steps| - 1;
      FrontIsTrail(trail, steps, n);
      TrailIsRun(trail[..n + 1], steps[..n]);
      assert Follows(trail, steps, n);
      OneMore(steps[..n], steps[n]);
      assert steps[..n] + [steps[n]] == steps;
    }
  }

  lemma OneMore(run: seq<Label>, l: Label)
    requires Runs(Fast, Init, run) && Consistent(Fast, Init, run)
    requires Enabled(After(Fast, Init, run), l) && Current(After(Fast, Init, run), l)
    ensures Runs(Fast, Init, run + [l]) && Consistent(Fast, Init, run + [l])
    ensures After(Fast, Init, run + [l]) == Step(Fast, After(Fast, Init, run), l)
  {
    RunSnoc(Fast, Init, run, l);
    ConsistentSnoc(Init, run, l);
  }

  lemma SenderKeepsBroken(st: State, a: SAct)
    requires SEnabled(st, a) && st.g.broken
    ensures SStep(Fast, st, a).g.broken
  {
  }

  lemma BrokenStays(st: State, l: Label)
    requires Enabled(st, l) && st.g.broken
    ensures Step(Fast, st, l).g.broken
  {
    match l {
      case S(a) => SenderKeepsBroken(st, a);
      case R(a) => ReceiverEffect(st, a);
    }
  }

  /** Every state of an unbroken trail has the invariant. */
  lemma {:induction false} GoodAt(trail: seq<State>, steps: seq<Label>, n: nat)
    requires IsTrail(trail, steps) && n <= |steps| && !trail[|steps|].g.broken
    ensures Good(trail[n])
    decreases |steps|
  {
    if n == |steps| {
      TrailIsRun(trail, steps);
      GoodInit();
      GoodRun(Fast, Init, steps);
    } else {
      var m := |steps| - 1;
      assert Follows(trail, steps, m);
      if trail[m].g.broken {
        BrokenStays(trail[m], steps[m]);
      }
      FrontIsTrail(trail, steps, m);
      GoodAt(trail[..m + 1], steps[..m], n);
    }
  }

  /** What the receiver has done so far: the calls it made, the wakers it wrote, how often park
      returned and how often of these spuriously, and the deadlines that passed. */
  datatype Tally = Tally(calls: seq<Op>, wakers: seq<Who>, parks: nat, hops: nat, expiries: seq<Expiry>)

  /** The verdict at a deadline's swap, and how often park had returned by then. */
  datatype Expiry = Expiry(verdict: Outcome, parks: nat)

  const NoTally := Tally([], [], 0, 0, [])

  function Tallied(t: Tally, st: State, l: Label): Tally {
    match l
    case S(_) => t
    case R(Begin(op, _)) => t.(calls := t.calls + [op])
    case R(Swap) =>
      if st.r.RIdle? then t.(calls := t.calls + [Drop(false)])
      else if st.r.RPark? then t.(expiries := t.expiries + [Expiry(Verdict(st), t.parks)])
      else t
    case R(PutWaker) => if st.r.RWrite? then t.(wakers := t.wakers + [OpWho(st.r.op)]) else t
    case R(Wake(spurious)) => t.(parks := t.parks + 1, hops := t.hops + if spurious then 1 else 0)
    case _ => t
  }

  /** What a receive returns once it has acted on the sender's final state, for the first time. */
  function Ending(st: State): Outcome {
    if st.g.sent.Some? then Got(st.g.sent.value) else Disconnected
  }

  lemma SentStep(st: State, l: Label)
    requires Enabled(st, l) && !Before(st)
    ensures !Before(Step(Fast, st, l)) && Step(Fast, st, l).g.sent == st.g.sent
  {
    match l {
      case S(a) => SenderEffect(st, a);
      case R(a) => ReceiverEffect(st, a);
    }
  }

  /** Once the sender has begun its update, what was sent is fixed. */
  lemma {:induction false} SentStays(trail: seq<State>, steps: seq<Label>, i: nat)
    requires IsTrail(trail, steps) && i <= |steps| && !Before(trail[i])
    ensures trail[|steps|].g.sent == trail[i].g.sent
    decreases |steps| - i
  {
    if i < |steps| {
      assert Follows(trail, steps, i);
      SentStep(trail[i], steps[i]);
      SentStays(trail, steps, i + 1);
    }
  }

  function TallyOf(trail: seq<State>, steps: seq<Label>): Tally
    requires |trail| == |steps| + 1
    decreases |steps|
  {
    if steps == [] then NoTally else
      var n := |steps| - 1;
      Tallied(TallyOf(trail[..n + 1], steps[..n]), trail[n], steps[n])
  }

  /** The sender's steps once it has seen RECEIVING. */
  const WakeUp := [TakeWaker, FinalSwap, Unpark]

  /** The sender's steps so far. */
  function ActsOf(steps: seq<Label>): seq<SAct> {
    if steps == [] then [] else
      var n := |steps| - 1;
      ActsOf(steps[..n]) + (if steps[n].S? then [steps[n].sa] else [])
  }

  lemma WakersTallied(t: Tally, st: State, l: Label)
    requires Enabled(st, l) && t.wakers == st.g.wakers
    ensures Tallied(t, st, l).wakers == Step(Fast, st, l).g.wakers
  {
    match l {
      case S(a) => SenderEffect(st, a);
      case R(a) => ReceiverEffect(st, a);
    }
  }

  lemma {:induction false} ConsistentSnoc(st: State, run: seq<Label>, l: Label)
    requires Runs(Fast, st, run) && Consistent(Fast, st, run) && Runs(Fast, st, run + [l])
    requires Enabled(After(Fast, st, run), l) && Current(After(Fast, st, run), l)
    ensures Consistent(Fast, st, run + [l])
    decreases |run|
  {
    if run != [] {
      assert (run + [l])[1..] == run[1..] + [l];
      ConsistentSnoc(Step(Fast, st, run[0]), run[1..], l);
    }
  }

  /** A bound on the sender's steps to its end. */
  function StepsLeft(s: SPc): nat {
    match s
    case SAlive => 5
    case SPublish => 4
    case STakeWaker(_) => 3
    case SFinalSwap(_, _) => 2
    case SUnpark(_, _) => 1
    case _ => 0
  }

  lemma SenderAdvances(st: State, a: SAct)
    requires SEnabled(st, a)
    ensures StepsLeft(SStep(Fast, st, a).s) <= StepsLeft(st.s) && (Left(st) ==> Left(SStep(Fast, st, a)))
    ensures !a.SIsClosed? && StepsLeft(st.s) > 0 ==> StepsLeft(SStep(Fast, st, a).s) < StepsLeft(st.s)
    ensures st.s.SFinished? ==> SStep(Fast, st, a).s == st.s
    ensures SStep(Fast, st, a).r == st.r && SStep(Fast, st, a).g.log == st.g.log
  {
  }

  class Channel {
    var state: Byte
    var message: Option<Message>
    var waker: Option<nat>
    var spurious: nat // spurious wakeups still to come
    var sys: State
    ghost var trail: seq<State>
    ghost var steps: seq<Label>
    ghost var tally: Tally
    ghost var acts: seq<SAct>

    /** `sys` is what a sequentially consistent run from `channel()` leads to, and the counts
        are those of that run. */
    ghost predicate Linked()
      reads this
    {
      IsTrail(trail, steps) && sys == trail[|steps|] &&
      tally == TallyOf(trail, steps) && tally.wakers == sys.g.wakers && acts == ActsOf(steps)
    }

    /** No async drop's swap has returned UNPARKING. */
    ghost predicate Sound()
      reads this
    {
      Linked() && !sys.g.broken
    }

    /** And the object's fields are its channel. */
    ghost predicate Valid()
      reads this
    {
      Sound() && sys.c.hist != [] && state == Last(sys.c.hist) && message == sys.c.msg && waker == sys.c.waker
    }

    /** `oneshot::channel()` */
    constructor (spurious: nat)
      ensures Valid() && sys == Init && this.spurious == spurious && tally == NoTally && acts == []
    {
      state, message, waker := EMPTY, None, None;
      sys, trail, steps, tally, acts := Init, [Init], [], NoTally, [];
      this.spurious := spurious;
    }

    lemma Reached()
      requires Sound()
      ensures Good(sys)
    {
      GoodAt(trail, steps, |steps|);
    }

    /** The system makes step `l`. */
    method Record(l: Label)
      requires Linked() && Enabled(sys, l) && Current(sys, l)
      modifies this`sys, this`trail, this`steps, this`tally, this`acts
      ensures Linked() && sys == Step(Fast, old(sys), l) && trail == old(trail) + [sys] && steps == old(steps) + [l]
      ensures tally == Tallied(old(tally), old(sys), l) && acts == old(acts) + if l.S? then [l.sa] else []
    {
      WakersTallied(tally, sys, l);
      tally := Tallied(tally, sys, l);
      acts := acts + if l.S? then [l.sa] else [];
      trail, steps := trail + [Step(Fast, sys, l)], steps + [l];
      forall i | 0 <= i < |steps|
        ensures Follows(trail, steps, i)
      {
        assert i < |old(steps)| ==> Follows(old(trail), old(steps), i);
      }
      assert trail[..|steps|] == old(trail) && steps[..|steps| - 1] == old(steps);
      sys := Step(Fast, sys, l);
    }

    // --------------------------------------------------------- the other endpoint's steps

    method SenderStep(a: SAct)
      requires Valid() && SEnabled(sys, a) && Current(sys, S(a))
      modifies this
      ensures Valid() && trail == old(trail) + [sys] && spurious == old(spurious) && tally == old(tally)
      ensures sys.r == old(sys.r) && sys.g.log == old(sys.g.log) && sys.s == SStep(Fast, old(sys), a).s
    {
      CanAct(a);
      SenderEffect(sys, a);
      Record(S(a));
      state, message, waker := Last(sys.c.hist), sys.c.msg, sys.c.waker;
    }

    /** Any number of sender steps. */
    method SenderRuns()
      requires Valid()
      modifies this
      ensures Valid() && old(trail) <= trail && spurious == old(spurious) && tally == old(tally)
      ensures sys.r == old(sys.r) && sys.g.log == old(sys.g.log)
      ensures StepsLeft(sys.s) <= StepsLeft(old(sys.s)) && (Left(old(sys)) ==> Left(sys))
    {
      var k: nat := *;
      while k > 0
        invariant Valid() && old(trail) <= trail && spurious == old(spurious) && tally == old(tally)
        invariant sys.r == old(sys.r) && sys.g.log == old(sys.g.log)
        invariant StepsLeft(sys.s) <= StepsLeft(old(sys.s)) && (Left(old(sys)) ==> Left(sys))
      {
        var a: SAct := *;
        if SEnabled(sys, a) && Current(sys, S(a)) {
          SenderAdvances(sys, a);
          SenderStep(a);
        }
        k := k - 1;
      }
    }

    // -------------------------------------------------------------- receiver operations

    /** Control is where `m` says, and the call has handed back what `m` says. */
    ghost predicate Moved(m: Move, log: seq<Outcome>)
      reads this
    {
      sys.r == m.r && m.ok && sys.g.log == log + (if m.out.Some? then [m.out.value] else [])
    }

    /** No step of a receiver meets unreachable!(), or breaks the hypothesis unless it says so. */
    lemma CanAdvance(a: RAct)
      requires Sound() && REnabled(sys, a) && !MoveOf(sys, a).broken
      ensures MoveOf(sys, a).ok && !RStep(sys, a).g.broken
    {
      Reached();
      GoodReceiver(sys, a);
    }

    method Advance(a: RAct)
      requires Valid() && REnabled(sys, a) && Current(sys, R(a)) && !MoveOf(sys, a).broken
      modifies this`sys, this`trail, this`steps, this`tally, this`acts
      ensures Sound() && trail == old(trail) + [sys] && ReceiverShows(old(sys), a, sys)
      ensures tally == Tallied(old(tally), old(sys), R(a)) && acts == old(acts)
      ensures Moved(MoveOf(old(sys), a), old(sys.g.log)) && sys.s == old(sys.s)
    {
      CanAdvance(a);
      ReceiverEffect(sys, a);
      Record(R(a));
    }

    /** The system just before its latest step. */
    ghost function Previous(): State
      requires |trail| >= 2
      reads this
    {
      trail[|trail| - 2]
    }

    /** The latest step replaced byte `was` by the present one. */
    ghost predicate Replaced(was: Byte)
      reads this
    {
      |trail| >= 2 && Previous().c.hist != [] && Last(Previous().c.hist) == was
    }

    // Each operation below first lets the other side make any number of steps; its own step is
    // the latest one of the trail.

    lemma NewestReadable()
      requires Sound()
      ensures sys.c.hist != [] && Readable(sys, |sys.c.hist| - 1) && sys.sv.cur.pos < |sys.c.hist|
    {
      Reached();
    }

    /** A load of the newest byte. */
    method AdvanceLoad(a: RAct)
      requires Valid() && REnabled(sys, a) && Current(sys, R(a)) && (a.Begin? || a.LoadAt?)
      modifies this`sys, this`trail, this`steps, this`tally, this`acts
      ensures Valid() && trail == old(trail) + [sys] && Moved(MoveOf(old(sys), a), old(sys.g.log)) && sys.s == old(sys.s)
      ensures tally == Tallied(old(tally), old(sys), R(a)) && sys.g.sent == old(sys.g.sent)
    {
      Advance(a);
    }

    /** The first `state.load` of a call. */
    method LoadFirst(op: Op) returns (v: Byte)
      requires Valid() && sys.r.RIdle? && Offers(sys.r.async, op)
      modifies this
      ensures Valid() && old(trail) <= trail && spurious == old(spurious)
      ensures tally == old(tally).(calls := old(tally).calls + [op])
      ensures v == state && Moved(BeginMatch(op, old(sys.r).async, v), old(sys.g.log))
      ensures |old(trail)| < |trail| && Replaced(v) && Previous().r == old(sys.r)
    {
      SenderRuns();
      NewestReadable();
      v := state;
      AdvanceLoad(Begin(op, |sys.c.hist| - 1));
    }

    lemma FinalShows()
      requires Valid() && (sys.r.RCheck? || sys.r.RWaitCheck? || sys.r.RSpin?) && Left(sys)
      ensures state == MESSAGE || state == DISCONNECTED
    {
      Reached();
    }

    /** A later `state.load`; once the sender has finished it returns the final state. */
    method LoadState() returns (v: Byte)
      requires Valid() && (sys.r.RCheck? || sys.r.RWaitCheck? || sys.r.RSpin?)
      modifies this
      ensures Valid() && old(trail) <= trail && spurious == old(spurious) && tally == old(tally)
      ensures Moved(LoadMatch(old(sys.r), v), old(sys.g.log))
      ensures Left(old(sys)) ==> v == MESSAGE || v == DISCONNECTED
      ensures StepsLeft(sys.s) <= StepsLeft(old(sys.s))
      ensures Replaced(v) && Previous().r == old(sys.r) && sys.g.sent == Previous().g.sent
    {
      SenderRuns();
      if Left(sys) { FinalShows(); }
      v := state;
      LoadNewest();
    }

    /** A later load, or the failing half of a compare_exchange. */
    method LoadNewest()
      requires Valid() && Loads(sys.r, state) && !sys.r.RDropSpin?
      modifies this`sys, this`trail, this`steps, this`tally, this`acts
      ensures Valid() && trail == old(trail) + [sys] && Moved(LoadMatch(old(sys.r), state), old(sys.g.log)) && sys.s == old(sys.s)
      ensures tally == old(tally) && sys.g.sent == old(sys.g.sent)
    {
      NewestReadable();
      AdvanceLoad(LoadAt(|sys.c.hist| - 1));
    }

    lemma SwapUnbroken()
      requires sys.c.hist != []
      requires sys.r == RIdle(false) || (sys.r.RArm? && Blocking(sys.r.op)) || (sys.r.RPark? && sys.r.op.RecvDeadline?)
      ensures REnabled(sys, Swap) && !MoveOf(sys, Swap).broken
    {
    }

    /** `state.swap` */
    method SwapState(v: Byte) returns (was: Byte)
      requires Valid() && v == SwapValue(sys.r)
      requires sys.r == RIdle(false) || (sys.r.RArm? && Blocking(sys.r.op)) || (sys.r.RPark? && sys.r.op.RecvDeadline?)
      modifies this
      ensures Valid() && old(trail) <= trail && spurious == old(spurious)
      ensures Moved(SwapMatch(old(sys.r), was), old(sys.g.log))
      ensures Replaced(was) && state == v && Previous().r == old(sys.r) && tally == Tallied(old(tally), Previous(), R(Swap))
    {
      SenderRuns();
      was := state;
      SwapNow(v);
    }

    method SwapNow(v: Byte)
      requires Valid() && v == SwapValue(sys.r)
      requires sys.r == RIdle(false) || (sys.r.RArm? && Blocking(sys.r.op)) || (sys.r.RPark? && sys.r.op.RecvDeadline?)
      modifies this`sys, this`trail, this`steps, this`tally, this`acts, this`state
      ensures Valid() && trail == old(trail) + [sys] && state == v && tally == Tallied(old(tally), old(sys), R(Swap))
      ensures Moved(SwapMatch(old(sys.r), old(state)), old(sys.g.log))
    {
      SwapUnbroken();
      Advance(Swap);
      state := v;
    }

    /** `state.compare_exchange` */
    method CompareExchange(expected: Byte, v: Byte) returns (was: Byte)
      requires Valid() && v == SwapValue(sys.r)
      requires (sys.r.RArm? && sys.r.op.Poll? && expected == EMPTY) ||
               ((sys.r.RReplace? || sys.r.RDropCas?) && expected == RECEIVING)
      modifies this
      ensures Valid() && old(trail) <= trail && spurious == old(spurious) && tally == old(tally)
      ensures Moved(if was == expected then SwapMatch(old(sys.r), was) else LoadMatch(old(sys.r), was), old(sys.g.log))
      ensures Replaced(was) && state == (if was == expected then v else was)
      ensures old(sys.r).RArm? && was == expected ==> sys.g.polled == Some(old(sys.r).op.task) && Registered(old(sys.r).op.task)
    {
      SenderRuns();
      was := CompareExchangeNow(expected, v);
    }

    method CompareExchangeNow(expected: Byte, v: Byte) returns (was: Byte)
      requires Valid() && v == SwapValue(sys.r)
      requires (sys.r.RArm? && sys.r.op.Poll? && expected == EMPTY) ||
               ((sys.r.RReplace? || sys.r.RDropCas?) && expected == RECEIVING)
      modifies this`sys, this`trail, this`steps, this`tally, this`acts, this`state
      ensures Valid() && trail == old(trail) + [sys] && tally == old(tally)
      ensures Moved(if was == expected then SwapMatch(old(sys.r), was) else LoadMatch(old(sys.r), was), old(sys.g.log))
      ensures Replaced(was) && state == (if was == expected then v else was)
      ensures old(sys.r).RArm? && was == expected ==> sys.g.polled == Some(old(sys.r).op.task) && Registered(old(sys.r).op.task)
    {
      was := state;
      if was == expected && sys.r.RArm? {
        Announce();
      } else if was == expected {
        Exchange(v);
      } else {
        LoadNewest();
      }
    }

    /** A poll's waker is stored and announced, and every earlier waker is disposed of. */
    ghost predicate Registered(task: nat)
      reads this
    {
      state == RECEIVING && waker.Some? && waker.value < |sys.g.wakers| && sys.g.wakers[waker.value] == Task(task) &&
      forall i :: 0 <= i < |sys.g.wakers| && Some(i) != waker ==> sys.g.dropped[i] + sys.g.unparked[i] == 1
    }

    /** Announcing keeps the waker that the poll has written. */
    lemma Announces(was: State)
      requires Valid() && Good(was) && was.r.RArm? && was.r.op.Poll?
      requires sys.c.waker == was.c.waker && sys.g.wakers == was.g.wakers && sys.r.RIdle? && state == RECEIVING
      ensures Registered(was.r.op.task)
    {
      Reached();
      forall i | 0 <= i < |sys.g.wakers| && Some(i) != waker
        ensures sys.g.dropped[i] + sys.g.unparked[i] == 1
      {
        assert Count(sys.c.waker, i) == 0 && Count(SenderHolds(sys.s), i) == 0;
      }
    }

    /** The succeeding half of a compare_exchange. */
    method Exchange(v: Byte)
      requires Valid() && REnabled(sys, Swap) && v == SwapValue(sys.r) && (sys.r.RReplace? || sys.r.RDropCas?)
      modifies this`sys, this`trail, this`steps, this`tally, this`acts, this`state
      ensures Valid() && trail == old(trail) + [sys] && state == v && Moved(SwapMatch(old(sys.r), old(state)), old(sys.g.log))
      ensures tally == old(tally)
    {
      Advance(Swap);
      state := v;
    }

    /** The same where it announces a poll's waker. */
    method Announce()
      requires Valid() && REnabled(sys, Swap) && sys.r.RArm? && sys.r.op.Poll?
      modifies this`sys, this`trail, this`steps, this`tally, this`acts, this`state
      ensures Valid() && trail == old(trail) + [sys] && state == RECEIVING
      ensures Moved(SwapMatch(old(sys.r), old(state)), old(sys.g.log)) && tally == old(tally)
      ensures sys.g.polled == Some(old(sys.r).op.task) && Registered(old(sys.r).op.task)
    {
      ghost var was := sys;
      Reached();
      Advance(Swap);
      state := RECEIVING;
      Announces(was);
    }

    /** `state.store(DISCONNECTED)` */
    method StoreState(v: Byte)
      requires Valid() && Executes(sys.r, StoreByte) && v == DISCONNECTED
      modifies this
      ensures Valid() && old(trail) <= trail && spurious == old(spurious) && tally == old(tally)
      ensures state == v && Moved(NextMatch(old(sys.r), None), old(sys.g.log))
    {
      SenderRuns();
      Advance(StoreByte);
      state := v;
    }

    method AcquireFence()
      requires Valid() && Executes(sys.r, Fence)
      modifies this
      ensures Valid() && old(trail) <= trail && spurious == old(spurious) && tally == old(tally)
      ensures Moved(NextMatch(old(sys.r), None), old(sys.g.log))
    {
      SenderRuns();
      Advance(Fence);
    }

    method WriteWaker()
      requires Valid() && Executes(sys.r, PutWaker)
      modifies this
      ensures Valid() && old(trail) <= trail && spurious == old(spurious)
      ensures tally == old(tally).(wakers := old(tally).wakers + [OpWho(old(sys.r).op)])
      ensures Moved(NextMatch(old(sys.r), None), old(sys.g.log))
      ensures |trail| >= 2 && Previous().c.waker.None? && waker.Some?
      ensures waker.value == |sys.g.wakers| - 1 && sys.g.wakers == Previous().g.wakers + [OpWho(old(sys.r).op)]
    {
      SenderRuns();
      NoWakerThere();
      Advance(PutWaker);
      waker := sys.c.waker;
    }

    /** A waker about to be written overwrites none. */
    lemma NoWakerThere()
      requires Valid() && Executes(sys.r, PutWaker)
      ensures waker.None?
    {
      Reached();
    }

    /** A waker about to be dropped is there. */
    lemma WakerThere()
      requires Valid() && Executes(sys.r, DiscardWaker)
      ensures waker.Some?
    {
      Reached();
    }

    /** A message about to be taken or dropped is there. */
    lemma MessageThere()
      requires Valid() && (Executes(sys.r, TakeMessage) || Executes(sys.r, DiscardMessage))
      ensures message.Some?
    {
      Reached();
    }

    method DropWaker()
      requires Valid() && Executes(sys.r, DiscardWaker)
      modifies this
      ensures Valid() && old(trail) <= trail && spurious == old(spurious) && tally == old(tally)
      ensures Moved(NextMatch(old(sys.r), None), old(sys.g.log))
      ensures |trail| >= 2 && Previous().c.waker.Some? && waker.None?
      ensures sys.g.dropped == Previous().g.dropped + multiset{Previous().c.waker.value}
    {
      SenderRuns();
      DropWakerNow();
    }

    method DropWakerNow()
      requires Valid() && Executes(sys.r, DiscardWaker)
      modifies this`sys, this`trail, this`steps, this`tally, this`acts, this`waker
      ensures Valid() && trail == old(trail) + [sys] && tally == old(tally)
      ensures Moved(NextMatch(old(sys.r), None), old(sys.g.log))
      ensures |trail| >= 2 && Previous().c.waker.Some? && waker.None?
      ensures sys.g.dropped == Previous().g.dropped + multiset{Previous().c.waker.value}
    {
      WakerThere();
      Advance(DiscardWaker);
      waker := None;
    }

    method TakeMessageOut() returns (m: Message)
      requires Valid() && Executes(sys.r, TakeMessage)
      modifies this
      ensures Valid() && old(trail) <= trail && spurious == old(spurious) && tally == old(tally)
      ensures Moved(NextMatch(old(sys.r), Some(m)), old(sys.g.log))
      ensures |trail| >= 2 && Previous().c.msg == Some(m) && message.None?
    {
      SenderRuns();
      m := TakeMessageOutNow();
    }

    method TakeMessageOutNow() returns (m: Message)
      requires Valid() && Executes(sys.r, TakeMessage)
      modifies this`sys, this`trail, this`steps, this`tally, this`acts, this`message
      ensures Valid() && trail == old(trail) + [sys] && tally == old(tally)
      ensures Moved(NextMatch(old(sys.r), Some(m)), old(sys.g.log))
      ensures |trail| >= 2 && Previous().c.msg == Some(m) && message.None?
    {
      MessageThere();
      m := message.value;
      Advance(TakeMessage);
      message := None;
    }

    method DropMessage()
      requires Valid() && Executes(sys.r, DiscardMessage)
      modifies this
      ensures Valid() && old(trail) <= trail && spurious == old(spurious) && tally == old(tally)
      ensures Moved(NextMatch(old(sys.r), None), old(sys.g.log))
      ensures |trail| >= 2 && Previous().c.msg.Some? && message.None?
    {
      SenderRuns();
      DropMessageNow();
    }

    method DropMessageNow()
      requires Valid() && Executes(sys.r, DiscardMessage)
      modifies this`sys, this`trail, this`steps, this`tally, this`acts, this`message
      ensures Valid() && trail == old(trail) + [sys] && tally == old(tally)
      ensures Moved(NextMatch(old(sys.r), None), old(sys.g.log))
      ensures |trail| >= 2 && Previous().c.msg.Some? && message.None?
    {
      MessageThere();
      Advance(DiscardMessage);
      message := None;
    }

    /** A channel about to be freed has not been freed, and the sender has left it. */
    lemma StillAllocated()
      requires Valid() && Executes(sys.r, FreeCell)
      ensures sys.c.live && Left(sys)
    {
      Reached();
    }

    method Deallocate()
      requires Valid() && Executes(sys.r, FreeCell)
      modifies this
      ensures Valid() && old(trail) <= trail && spurious == old(spurious) && tally == old(tally)
      ensures Left(sys) && Moved(NextMatch(old(sys.r), None), old(sys.g.log))
      ensures |trail| >= 2 && Previous().c.live && !sys.c.live
    {
      SenderRuns();
      StillAllocated();
      Advance(FreeCell);
    }

    // -------------------------------------------------------------- Receiver::try_recv

    /** What the last result in the log says is so: a message handed out is the one that was
        sent, and nothing else will be; after a disconnection none will come. Either way no
        waker is left. */
    ghost predicate Justified(r: Outcome)
      reads this
    {
      (r.Got? ==> sys.g.sent == Some(r.m) && sys.g.fates == [Received(r.m)]) &&
      (r.Got? || r.Disconnected? ==> message.None? && waker.None? && Left(sys))
    }

    lemma Justify(r: Outcome)
      requires Valid() && sys.g.log != [] && sys.g.log[|sys.g.log| - 1] == r && (sys.r.RIdle? || (sys.r.RDone? && Left(sys)))
      ensures Justified(r)
    {
      Reached();
    }

    /** What the byte tells a receiver between calls. */
    lemma WhatIdleSees()
      requires Valid() && sys.r.RIdle?
      ensures state == MESSAGE <==> Left(sys) && message.Some?
      ensures state == DISCONNECTED <==> Left(sys) && message.None?
      ensures state == EMPTY ==> Before(sys) && waker.None?
    {
      Reached();
    }

    /** Store DISCONNECTED, fence, take. */
    method StoreFenceAndTake() returns (m: Message)
      requires Valid() && sys.r.RTail? && sys.r.todo == StoreFenceTake && !Consuming(sys.r.op)
      modifies this
      ensures tally == old(tally) && spurious == old(spurious)
      ensures Valid() && old(trail) <= trail && sys.r == RIdle(OpAsync(old(sys.r).op))
      ensures sys.g.log == old(sys.g.log) + [Got(m)]
    {
      StoreState(DISCONNECTED);
      AcquireFence();
      m := TakeMessageOut();
    }

    /** `r` is what a receive that does not wait has to answer in state `st`. */
    ghost predicate Answers(st: State, r: Outcome) {
      (r.Empty? <==> Before(st)) && (r.Got? <==> Left(st) && st.c.msg.Some?) &&
      (r.Disconnected? <==> Left(st) && st.c.msg.None?)
    }

    /** What the byte that an idle `Receiver` has just loaded says of the state it was loaded in. */
    lemma PreviousSees(v: Byte)
      requires Sound() && Replaced(v) && Previous().r == RIdle(false)
      ensures v == EMPTY <==> Before(Previous())
      ensures v == MESSAGE <==> Left(Previous()) && Previous().c.msg.Some?
      ensures v == DISCONNECTED <==> Left(Previous()) && Previous().c.msg.None?
    {
      GoodAt(trail, steps, |steps| - 1);
    }

    method TryRecv() returns (r: Outcome)
      requires Valid() && sys.r == RIdle(false)
      modifies this
      ensures Valid() && old(trail) <= trail && sys.r == RIdle(false) && sys.g.log == old(sys.g.log) + [r]
      ensures tally == old(tally).(calls := old(tally).calls + [Op.TryRecv]) && spurious == old(spurious)
      ensures exists i :: |old(trail)| - 1 <= i < |trail| && trail[i].r == RIdle(false) && Answers(trail[i], r)
      ensures (r.Got? || r.Empty? || r.Disconnected?) && Justified(r) && (r.Empty? ==> Before(sys) && waker.None?)
    {
      var v := LoadFirst(Op.TryRecv);
      ghost var i := |trail| - 2;
      PreviousSees(v);
      if v == MESSAGE {
        var m := StoreFenceAndTake();
        r := Got(m);
      } else if v == EMPTY {
        r := Empty;
        WhatIdleSees();
      } else if v == DISCONNECTED {
        r := Disconnected;
      } else {
        assert false; // unreachable!()
      }
      Justify(r);
      assert Answers(trail[i], r);
    }

    // ------------------------------------------------------------------- thread::park

    /** The sender makes its next step, whatever it chooses to do. */
    method SenderProceeds()
      requires Valid() && InPark(sys.r) && OpThread(sys.r.op) !in sys.g.tokens
      modifies this
      ensures Valid() && old(trail) <= trail && spurious == old(spurious) && tally == old(tally)
      ensures sys.r == old(sys.r) && sys.g.log == old(sys.g.log) && StepsLeft(sys.s) < StepsLeft(old(sys.s))
    {
      Reached();
      var choice: SAct := *;
      var a := if sys.s.SAlive? && choice.WriteMessage? then choice else SenderNext(sys);
      SenderNotStuck(sys);
      SenderAdvances(sys, a);
      SenderStep(a);
    }

    /** Park returns. */
    method Unparked(spurious: bool)
      requires Valid() && InPark(sys.r) && (spurious || OpThread(sys.r.op) in sys.g.tokens)
      modifies this`sys, this`trail, this`steps, this`tally, this`acts
      ensures tally == old(tally).(parks := old(tally).parks + 1, hops := old(tally).hops + if spurious then 1 else 0)
      ensures Valid() && old(trail) <= trail && sys.g.log == old(sys.g.log)
      ensures (if old(sys.r).RPark? then sys.r.RCheck? else sys.r.RWaitCheck?) && sys.r.op == old(sys.r).op
      ensures !spurious ==> Left(sys)
    {
      Reached();
      Advance(Wake(spurious));
    }

    /** `thread::park()`: returns on the token, or spuriously while there are such wakeups to
        come. It always returns, because a parked receiver's sender still owes it an unpark. */
    method Park()
      requires Valid() && InPark(sys.r)
      modifies this
      ensures tally == old(tally).(parks := old(tally).parks + 1, hops := tally.hops) && tally.hops + spurious == old(tally.hops + spurious)
      ensures Valid() && old(trail) <= trail && sys.g.log == old(sys.g.log) && old(spurious) - 1 <= spurious <= old(spurious)
      ensures (if old(sys.r).RPark? then sys.r.RCheck? else sys.r.RWaitCheck?) && sys.r.op == old(sys.r).op
      ensures spurious == old(spurious) ==> Left(sys)
    {
      var t := OpThread(sys.r.op);
      while t !in sys.g.tokens
        invariant Valid() && old(trail) <= trail && spurious == old(spurious) && tally == old(tally)
        invariant sys.r == old(sys.r) && sys.g.log == old(sys.g.log)
        decreases StepsLeft(sys.s)
      {
        var wakes: bool := *;
        if wakes && spurious > 0 {
          spurious := spurious - 1;
          Unparked(true);
          return;
        }
        SenderProceeds();
      }
      Unparked(false);
    }

    /** Parks, or if `timed` runs into the deadline, and loads the byte. */
    method ParkThenLoad(timed: bool) returns (v: Byte)
      requires Valid() && sys.r.RPark?
      modifies this
      ensures tally == old(tally).(parks := old(tally).parks + 1, hops := tally.hops)
      ensures tally.hops + spurious == old(tally.hops + spurious) + if timed then 1 else 0
      ensures Valid() && old(trail) <= trail && old(spurious) - 1 <= spurious <= old(spurious)
      ensures Moved(CheckMatch(old(sys.r).op, v), old(sys.g.log))
      ensures !timed && spurious == old(spurious) ==> v == MESSAGE || v == DISCONNECTED
    {
      if timed {
        Unparked(true);
      } else {
        Park();
      }
      v := LoadState();
    }

    /** Since `t` and `s` the receiver has only parked, and but for the last time park returned
        spuriously, out of the budget of such wakeups. */
    ghost predicate Waited(t: Tally, s: nat)
      reads this
    {
      tally == t.(parks := tally.parks, hops := tally.hops) && tally.hops + spurious == t.hops + s &&
      t.hops <= tally.hops && t.parks <= tally.parks <= t.parks + (tally.hops - t.hops) + 1
    }

    /** Since `t` and `s` the receiver has made exactly call `op`, with at most one waker written,
        the caller's own, and no wakeups beyond those due. */
    ghost predicate Called(op: Op, t: Tally, s: nat)
      reads this
    {
      Waited(t.(calls := t.calls + [op]), s) || Waited(t.(calls := t.calls + [op], wakers := t.wakers + [OpWho(op)]), s)
    }

    // ------------------------------------------------------------------ Receiver::recv

    method TakeAndFree() returns (m: Message)
      requires Valid() && sys.r.RTail? && sys.r.op.Recv? && sys.r.todo == Nothing.(take := true, free := true)
      modifies this
      ensures tally == old(tally) && spurious == old(spurious)
      ensures Valid() && old(trail) <= trail && sys.r == RDone && Left(sys) && !sys.c.live
      ensures sys.g.log == old(sys.g.log) + [Got(m)]
    {
      m := TakeMessageOut();
      Deallocate();
    }

    /** The swap(RECEIVING) found the sender's final state: undo the registration and finish. */
    method RecvUndo(was: Byte) returns (r: Outcome)
      requires Valid() && sys.r.RTail? && sys.r.op.Recv? && (was == MESSAGE || was == DISCONNECTED)
      requires sys.r == ArmMatch(sys.r.op, was).r
      modifies this
      ensures tally == old(tally) && spurious == old(spurious)
      ensures Valid() && old(trail) <= trail && sys.r == RDone && Left(sys) && !sys.c.live
      ensures sys.g.log == old(sys.g.log) + [r] && (r.Got? || r.Disconnected?)
    {
      DropWaker();
      AcquireFence();
      if was == MESSAGE {
        var m := TakeAndFree();
        r := Got(m);
      } else {
        Deallocate();
        r := Disconnected;
      }
    }

    /** The arms of recv's loop for the sender's final states. */
    method RecvFinish(v: Byte) returns (r: Outcome)
      requires Valid() && sys.r.RTail? && sys.r.op.Recv? && (v == MESSAGE || v == DISCONNECTED)
      requires sys.r == CheckMatch(sys.r.op, v).r
      modifies this
      ensures tally == old(tally) && spurious == old(spurious)
      ensures Valid() && old(trail) <= trail && sys.r == RDone && Left(sys) && !sys.c.live
      ensures sys.g.log == old(sys.g.log) + [r] && (r.Got? || r.Disconnected?)
    {
      if v == MESSAGE {
        var m := TakeAndFree();
        r := Got(m);
      } else {
        Deallocate();
        r := Disconnected;
      }
    }

    /** Registered as RECEIVING: park until the sender's final state shows. */
    method RecvLoop(t: nat) returns (r: Outcome)
      requires Valid() && sys.r == RPark(Op.Recv(t))
      modifies this
      ensures Waited(old(tally), old(spurious))
      ensures Valid() && old(trail) <= trail && sys.r == RDone && Left(sys) && !sys.c.live
      ensures sys.g.log == old(sys.g.log) + [r] && (r.Got? || r.Disconnected?)
    {
      while true
        invariant Valid() && old(trail) <= trail && sys.r == RPark(Op.Recv(t)) && sys.g.log == old(sys.g.log)
        invariant Waited(old(tally), old(spurious)) && tally.parks - old(tally.parks) == tally.hops - old(tally.hops)
        decreases spurious
      {
        var v := ParkThenLoad(false);
        if v == MESSAGE || v == DISCONNECTED {
          r := RecvFinish(v);
          return;
        } else if v == RECEIVING || v == UNPARKING {
          // spurious wakeup, park again
        } else {
          assert false; // unreachable!()
        }
      }
    }

    /** The EMPTY arm of recv. */
    method RecvWaits(t: nat) returns (r: Outcome)
      requires Valid() && sys.r == RWrite(Op.Recv(t))
      modifies this
      ensures Waited(old(tally).(wakers := old(tally).wakers + [Thread(t)]), old(spurious))
      ensures Valid() && old(trail) <= trail && sys.r == RDone && Left(sys) && !sys.c.live
      ensures sys.g.log == old(sys.g.log) + [r] && (r.Got? || r.Disconnected?)
    {
      WriteWaker();
      var was := SwapState(RECEIVING);
      if was == EMPTY {
        r := RecvLoop(t);
      } else if was == MESSAGE || was == DISCONNECTED {
        r := RecvUndo(was);
      } else {
        assert false; // unreachable!()
      }
    }

    /** The arms of recv for a final state that is there from the start. */
    method RecvFound(v: Byte) returns (r: Outcome)
      requires Valid() && sys.r.RTail? && sys.r.op.Recv? && (v == MESSAGE || v == DISCONNECTED)
      requires sys.r == BeginMatch(sys.r.op, false, v).r
      modifies this
      ensures tally == old(tally) && spurious == old(spurious)
      ensures Valid() && old(trail) <= trail && sys.r == RDone && Left(sys) && !sys.c.live
      ensures sys.g.log == old(sys.g.log) + [r] && (r.Got? || r.Disconnected?)
    {
      AcquireFence();
      if v == MESSAGE {
        var m := TakeAndFree();
        r := Got(m);
      } else {
        Deallocate();
        r := Disconnected;
      }
    }

    method Recv(t: nat) returns (r: Outcome)
      requires Valid() && sys.r == RIdle(false)
      modifies this
      ensures Called(Op.Recv(t), old(tally), old(spurious))
      ensures Valid() && old(trail) <= trail && sys.r == RDone && sys.g.log == old(sys.g.log) + [r]
      ensures (r.Got? || r.Disconnected?) && Justified(r) && !sys.c.live
    {
      var v := LoadFirst(Op.Recv(t));
      if v == EMPTY {
        r := RecvWaits(t);
      } else if v == MESSAGE || v == DISCONNECTED {
        r := RecvFound(v);
      } else {
        assert false; // unreachable!()
      }
      Justify(r);
    }

    // ------------------------------------- Receiver::recv_ref, recv_deadline, recv_timeout

    method StoreAndTake() returns (m: Message)
      requires Valid() && sys.r.RTail? && sys.r.todo == StoreTake && !Consuming(sys.r.op)
      modifies this
      ensures tally == old(tally) && spurious == old(spurious)
      ensures Valid() && old(trail) <= trail && sys.r == RIdle(OpAsync(old(sys.r).op))
      ensures sys.g.log == old(sys.g.log) + [Got(m)]
    {
      StoreState(DISCONNECTED);
      m := TakeMessageOut();
    }

    /** The swap(RECEIVING) of start_recv_ref found the sender's final state. */
    method RefUndo(was: Byte) returns (r: Outcome)
      requires Valid() && sys.r.RTail? && (sys.r.op.RecvRef? || sys.r.op.RecvDeadline?) && (was == MESSAGE || was == DISCONNECTED)
      requires sys.r == ArmMatch(sys.r.op, was).r
      modifies this
      ensures tally == old(tally) && spurious == old(spurious)
      ensures Valid() && old(trail) <= trail && sys.r == RIdle(false)
      ensures sys.g.log == old(sys.g.log) + [r] && (r.Got? || r.Disconnected?)
    {
      DropWaker();
      if was == MESSAGE {
        var m := StoreFenceAndTake();
        r := Got(m);
      } else {
        StoreAndFence();
        r := Disconnected;
      }
    }

    /** Its DISCONNECTED arm, once the waker is dropped. */
    method StoreAndFence()
      requires Valid() && sys.r.RTail? && !OpAsync(sys.r.op) && !Consuming(sys.r.op)
      requires sys.r.todo == Nothing.(store := true, fence := true, out := Some(Disconnected))
      modifies this
      ensures tally == old(tally) && spurious == old(spurious)
      ensures Valid() && old(trail) <= trail && sys.r == RIdle(false) && sys.g.log == old(sys.g.log) + [Disconnected]
    {
      StoreState(DISCONNECTED);
      AcquireFence();
    }

    /** `finish` of recv_ref. */
    method RefLoop(t: nat) returns (r: Outcome)
      requires Valid() && sys.r == RPark(Op.RecvRef(t))
      modifies this
      ensures Waited(old(tally), old(spurious))
      ensures Valid() && old(trail) <= trail && sys.r == RIdle(false)
      ensures sys.g.log == old(sys.g.log) + [r] && (r.Got? || r.Disconnected?)
    {
      while true
        invariant Valid() && old(trail) <= trail && sys.r == RPark(Op.RecvRef(t)) && sys.g.log == old(sys.g.log)
        invariant Waited(old(tally), old(spurious)) && tally.parks - old(tally.parks) == tally.hops - old(tally.hops)
        decreases spurious
      {
        var v := ParkThenLoad(false);
        if v == MESSAGE {
          var m := StoreAndTake();
          return Got(m);
        } else if v == DISCONNECTED {
          return Disconnected;
        } else if v == RECEIVING || v == UNPARKING {
          // spurious wakeup, park again
        } else {
          assert false; // unreachable!()
        }
      }
    }

    /** start_recv_ref up to `finish`: registers, or returns at once. */
    method StartRecvRef(op: Op) returns (r: Option<Outcome>)
      requires Valid() && sys.r == RIdle(false) && (op.RecvRef? || op.RecvDeadline?)
      modifies this
      ensures Valid() && old(trail) <= trail && spurious == old(spurious)
      ensures var t := old(tally).(calls := old(tally).calls + [op]);
        tally == t.(wakers := t.wakers + [OpWho(op)]) || (r.Some? && tally == t)
      ensures r.None? ==> sys.r == RPark(op) && sys.g.log == old(sys.g.log)
      ensures r.Some? ==> sys.r == RIdle(false) && sys.g.log == old(sys.g.log) + [r.value] &&
                          (r.value.Got? || r.value.Disconnected?)
    {
      var v := LoadFirst(op);
      if v == EMPTY {
        WriteWaker();
        var was := SwapState(RECEIVING);
        if was == EMPTY {
          r := None;
        } else if was == MESSAGE || was == DISCONNECTED {
          var o := RefUndo(was);
          r := Some(o);
        } else {
          assert false; // unreachable!()
        }
      } else if v == MESSAGE {
        var m := StoreAndTake();
        r := Some(Got(m));
      } else if v == DISCONNECTED {
        r := Some(Disconnected);
      } else {
        assert false; // unreachable!()
      }
    }

    method RecvRef(t: nat) returns (r: Outcome)
      requires Valid() && sys.r == RIdle(false)
      modifies this
      ensures Called(Op.RecvRef(t), old(tally), old(spurious))
      ensures Valid() && old(trail) <= trail && sys.r == RIdle(false) && sys.g.log == old(sys.g.log) + [r]
      ensures (r.Got? || r.Disconnected?) && Justified(r)
    {
      var early := StartRecvRef(Op.RecvRef(t));
      if early.Some? {
        r := early.value;
      } else {
        r := RefLoop(t);
      }
      Justify(r);
    }

    /** DISCONNECTED ends this wait only if nothing was sent. */
    lemma NothingSent()
      requires Sound() && Replaced(DISCONNECTED) && Previous().r.RWaitCheck?
      ensures Previous().g.sent.None?
    {
      GoodAt(trail, steps, |steps| - 1);
    }

    /** The deadline overtook the sender while it unparks: wait for its final state. */
    method WaitForUnpark(t: nat) returns (r: Outcome)
      requires Valid() && sys.r.RWaitPark? && sys.r.op == Op.RecvDeadline(t)
      modifies this
      ensures Waited(old(tally), old(spurious))
      ensures Valid() && old(trail) <= trail && sys.r == RIdle(false)
      ensures sys.g.log == old(sys.g.log) + [r] && (r.Got? || r.Disconnected?)
      ensures r == Ending(sys)
    {
      while true
        invariant Valid() && old(trail) <= trail && sys.g.log == old(sys.g.log)
        invariant sys.r.RWaitPark? && sys.r.op == Op.RecvDeadline(t)
        invariant Waited(old(tally), old(spurious)) && tally.parks - old(tally.parks) == tally.hops - old(tally.hops)
        decreases spurious
      {
        Park();
        var v := LoadState();
        if v == MESSAGE {
          var m := StoreAndTake();
          Justify(Got(m));
          return Got(m);
        } else if v == DISCONNECTED {
          NothingSent();
          return Disconnected;
        } else if v == EMPTY {
          // the sender is still unparking us
        } else {
          assert false; // unreachable!()
        }
      }
    }

    /** The deadline's swap(EMPTY) found the sender's final state. */
    method GiveUpLate(was: Byte, ghost i: nat) returns (r: Outcome)
      requires Valid() && sys.r.RTail? && sys.r.op.RecvDeadline? && (was == MESSAGE || was == DISCONNECTED)
      requires sys.r == DeadlineMatch(sys.r.op, was).r
      requires i <= |steps| && !Before(trail[i]) && (was == DISCONNECTED ==> trail[i].g.sent.None?)
      modifies this
      ensures tally == old(tally) && spurious == old(spurious)
      ensures Valid() && old(trail) <= trail && sys.r == RIdle(false)
      ensures sys.g.log == old(sys.g.log) + [r] && r == Verdict(old(trail)[i])
    {
      if was == MESSAGE {
        var m := StoreAndTake();
        r := Got(m);
        Justify(r);
      } else {
        StoreState(DISCONNECTED);
        r := Disconnected;
      }
      LateVerdict(i, r);
    }

    /** The deadline has passed. */
    method GiveUp(t: nat) returns (r: Outcome)
      requires Valid() && sys.r == RPark(Op.RecvDeadline(t))
      modifies this
      ensures Waited(old(tally).(expiries := old(tally).expiries + [Expiry(r, old(tally).parks)]), old(spurious))
      ensures Valid() && old(trail) <= trail && sys.r == RIdle(false)
      ensures sys.g.log == old(sys.g.log) + [r] && (r.Got? || r.Disconnected? || r.Timeout?)
      ensures r.Timeout? ==> waker.None?
    {
      var was := DeadlineSwap();
      ghost var i := |trail| - 2;
      if was == RECEIVING {
        TimeOut();
        r := Timeout;
      } else if was == MESSAGE || was == DISCONNECTED {
        r := GiveUpLate(was, i);
      } else if was == UNPARKING {
        r := WaitForUnpark(t);
        LateVerdict(i, r);
      } else {
        assert false; // unreachable!()
      }
    }

    /** The sender had not begun: drop the waker and report Timeout. */
    method TimeOut()
      requires Valid() && sys.r.RTail? && sys.r.op.RecvDeadline? && sys.r.todo == TimedOut
      modifies this
      ensures tally == old(tally) && spurious == old(spurious)
      ensures Valid() && old(trail) <= trail && sys.r == RIdle(false) && sys.g.log == old(sys.g.log) + [Timeout] && waker.None?
    {
      DropWaker();
    }

    /** A deadline that passes once the sender has begun its update has the verdict that the call
        returns in the end. */
    lemma LateVerdict(i: nat, r: Outcome)
      requires Sound() && i <= |steps| && !Before(trail[i])
      requires r == Ending(sys) || (r.Got? && sys.g.sent == Some(r.m)) || (r.Disconnected? && trail[i].g.sent.None?)
      ensures r == Verdict(trail[i])
    {
      SentStays(trail, steps, i);
    }

    /** The swap(EMPTY) once the deadline has passed. */
    method DeadlineSwap() returns (was: Byte)
      requires Valid() && sys.r.RPark? && sys.r.op.RecvDeadline?
      modifies this
      ensures Valid() && old(trail) <= trail && spurious == old(spurious) && |trail| >= 2
      ensures Moved(DeadlineMatch(old(sys.r).op, was), old(sys.g.log))
      ensures tally == old(tally).(expiries := old(tally).expiries + [Expiry(Verdict(Previous()), old(tally).parks)])
      ensures was == RECEIVING <==> Before(Previous())
      ensures was == MESSAGE ==> Previous().g.sent.Some?
      ensures was == DISCONNECTED ==> Previous().g.sent.None?
    {
      was := SwapState(EMPTY);
      Expires(was);
    }

    /** What the byte replaced by the deadline's swap says of the sender. */
    lemma Expires(was: Byte)
      requires Sound() && Replaced(was) && Previous().r.RPark?
      ensures was == RECEIVING <==> Before(Previous())
      ensures was == MESSAGE ==> Previous().g.sent.Some?
      ensures was == DISCONNECTED ==> Previous().g.sent.None?
    {
      GoodAt(trail, steps, |steps| - 1);
    }


    /** Since `t` and `s` the receiver has parked and answered `r`, with a clock that shows time
        left `passes` times. Either the deadline passed: then park had returned exactly so often,
        and `r` is the verdict at the swap. Or it did not: then park returned at most so often,
        and `r` is not Timeout. One wakeup may be due to the deadline. */
    ghost predicate Timely(t: Tally, s: nat, passes: nat, r: Outcome)
      reads this
    {
      tally == t.(parks := tally.parks, hops := tally.hops, expiries := tally.expiries) &&
      t.hops <= tally.hops && tally.hops + spurious <= t.hops + s + 1 &&
      if tally.expiries == t.expiries then !r.Timeout? && tally.parks <= t.parks + passes
      else tally.expiries == t.expiries + [Expiry(r, t.parks + passes)]
    }

    /** The same for exactly one call of recv_deadline, which wrote no waker but the caller's. */
    ghost predicate CalledUntil(op: Op, t: Tally, s: nat, passes: nat, r: Outcome)
      reads this
    {
      Timely(t.(calls := t.calls + [op]), s, passes, r) ||
      Timely(t.(calls := t.calls + [op], wakers := t.wakers + [OpWho(op)]), s, passes, r)
    }

    /** `finish` of recv_deadline. The clock shows time left the first `passes` times it is read;
        `thread::park_timeout` returns like park, or, the last time, because the deadline is
        reached. */
    method DeadlineLoop(t: nat, passes: nat) returns (r: Outcome)
      requires Valid() && sys.r == RPark(Op.RecvDeadline(t))
      modifies this
      ensures Timely(old(tally), old(spurious), passes, r)
      ensures Valid() && old(trail) <= trail && sys.r == RIdle(false)
      ensures sys.g.log == old(sys.g.log) + [r] && (r.Got? || r.Disconnected? || r.Timeout?)
      ensures r.Timeout? ==> waker.None?
    {
      var left: nat := passes;
      while left > 0
        invariant Valid() && old(trail) <= trail && sys.r == RPark(Op.RecvDeadline(t)) && sys.g.log == old(sys.g.log)
        invariant tally == old(tally).(parks := old(tally).parks + (passes - left), hops := tally.hops) && left <= passes
        invariant old(tally).hops <= tally.hops && tally.hops + spurious <= old(tally.hops + spurious) + if left == 0 then 1 else 0
      {
        left := left - 1;
        var timed: bool := *;
        var o := DeadlinePass(t, timed && left == 0);
        if o.Some? {
          return o.value;
        }
      }
      r := GiveUp(t);
    }

    /** One pass of it that finds time left: park and look. */
    method DeadlinePass(t: nat, timed: bool) returns (o: Option<Outcome>)
      requires Valid() && sys.r == RPark(Op.RecvDeadline(t))
      modifies this
      ensures Valid() && old(trail) <= trail && tally == old(tally).(parks := old(tally).parks + 1, hops := tally.hops)
      ensures old(tally).hops <= tally.hops && tally.hops + spurious == old(tally.hops + spurious) + if timed then 1 else 0
      ensures o.None? ==> sys.r == RPark(Op.RecvDeadline(t)) && sys.g.log == old(sys.g.log)
      ensures o.Some? ==> sys.r == RIdle(false) && sys.g.log == old(sys.g.log) + [o.value] && (o.value.Got? || o.value.Disconnected?)
    {
      var v := ParkThenLoad(timed);
      if v == MESSAGE {
        var m := StoreAndTake();
        o := Some(Got(m));
      } else if v == DISCONNECTED {
        o := Some(Disconnected);
      } else if v == RECEIVING || v == UNPARKING {
        o := None; // spurious wakeup, park again
      } else {
        assert false; // unreachable!()
      }
    }

    method RecvDeadline(t: nat, passes: nat) returns (r: Outcome)
      requires Valid() && sys.r == RIdle(false)
      modifies this
      ensures CalledUntil(Op.RecvDeadline(t), old(tally), old(spurious), passes, r)
      ensures Valid() && old(trail) <= trail && sys.r == RIdle(false) && sys.g.log == old(sys.g.log) + [r]
      ensures (r.Got? || r.Disconnected? || r.Timeout?) && Justified(r)
      ensures r.Timeout? ==> waker.None?
    {
      var early := StartRecvRef(Op.RecvDeadline(t));
      if early.Some? {
        r := early.value;
      } else {
        r := DeadlineLoop(t, passes);
      }
      Justify(r);
    }

    /** `representable`: the deadline fits an `Instant`; else the call blocks without limit. */
    method RecvTimeout(t: nat, representable: bool, passes: nat) returns (r: Outcome)
      requires Valid() && sys.r == RIdle(false)
      modifies this
      ensures if representable then CalledUntil(Op.RecvDeadline(t), old(tally), old(spurious), passes, r)
              else Called(Op.RecvRef(t), old(tally), old(spurious))
      ensures Valid() && old(trail) <= trail && sys.r == RIdle(false) && sys.g.log == old(sys.g.log) + [r]
      ensures (r.Got? || r.Disconnected? || (r.Timeout? && representable)) && Justified(r)
    {
      if representable {
        r := RecvDeadline(t, passes);
      } else {
        r := RecvRef(t);
      }
    }

    // ------------------------------------------------------------------- AsyncReceiver

    method IntoFuture()
      requires Valid() && sys.r == RIdle(false)
      modifies this
      ensures tally == old(tally) && spurious == old(spurious)
      ensures Valid() && old(trail) <= trail && sys.r == RIdle(true) && sys.g.log == old(sys.g.log)
    {
      SenderRuns();
      Advance(RAct.IntoFuture);
    }

    /** `Channel::write_async_waker` */
    method WriteAsyncWaker(task: nat) returns (r: Outcome)
      requires Valid() && sys.r == RWrite(Op.Poll(task))
      modifies this
      ensures tally == old(tally).(wakers := old(tally).wakers + [Task(task)]) && spurious == old(spurious)
      ensures Valid() && old(trail) <= trail && sys.r == RIdle(true) && sys.g.log == old(sys.g.log) + [r]
      ensures (r.Got? || r.Disconnected? || r.Pending?) && Justified(r)
      ensures r.Pending? ==> sys.g.polled == Some(task) && Registered(task)
    {
      WriteWaker();
      var was := CompareExchange(EMPTY, RECEIVING);
      if was == EMPTY {
        r := Pending;
      } else if was == MESSAGE || was == DISCONNECTED {
        r := AsyncUndo(was);
      } else {
        assert false; // unreachable!()
      }
    }

    /** Its compare_exchange found the sender's final state. */
    method AsyncUndo(was: Byte) returns (r: Outcome)
      requires Valid() && sys.r.RTail? && sys.r.op.Poll? && (was == MESSAGE || was == DISCONNECTED)
      requires sys.r == ArmMatch(sys.r.op, was).r
      modifies this
      ensures tally == old(tally) && spurious == old(spurious)
      ensures Valid() && old(trail) <= trail && sys.r == RIdle(true) && sys.g.log == old(sys.g.log) + [r]
      ensures (r.Got? || r.Disconnected?) && Justified(r)
    {
      DropWaker();
      if was == MESSAGE {
        var m := StoreFenceAndTake();
        r := Got(m);
      } else {
        r := Disconnected;
      }
      Justify(r);
    }

    /** `cx.waker().wake_by_ref()` */
    method WakeByRef()
      requires Valid() && sys.r.RSelfWake?
      modifies this
      ensures tally == old(tally) && spurious == old(spurious)
      ensures Valid() && old(trail) <= trail && Moved(NextMatch(old(sys.r), None), old(sys.g.log))
      ensures old(sys.r).op.Poll? ==> sys.g.polled == Some(old(sys.r).op.task)
      ensures |trail| >= 2 && sys.g.wakes == Previous().g.wakes + [OpWho(old(sys.r).op)]
    {
      SenderRuns();
      Advance(WakeSelf);
    }

    /** The latest step woke `task`. */
    ghost predicate WokeItself(task: nat)
      reads this
    {
      |trail| >= 2 && sys.g.wakes == Previous().g.wakes + [Task(task)]
    }

    /** Polled again while registered: replace the waker. */
    method PollAgain(task: nat) returns (r: Outcome)
      requires Valid() && sys.r == RReplace(Op.Poll(task))
      modifies this
      ensures (tally == old(tally) || tally == old(tally).(wakers := old(tally).wakers + [Task(task)])) && spurious == old(spurious)
      ensures Valid() && old(trail) <= trail && sys.r == RIdle(true) && sys.g.log == old(sys.g.log) + [r]
      ensures (r.Got? || r.Disconnected? || r.Pending?) && Justified(r)
      ensures r.Pending? ==> sys.g.polled == Some(task) && (Registered(task) || WokeItself(task))
    {
      var was := CompareExchange(RECEIVING, EMPTY);
      if was == RECEIVING {
        r := PollReplaces(task);
      } else if was == MESSAGE {
        r := PollTakes();
      } else if was == DISCONNECTED {
        r := Disconnected;
        Justify(r);
      } else if was == UNPARKING {
        r := PollWakesItself(task);
      } else {
        assert false; // unreachable!()
      }
    }

    /** The UNPARKING arm. */
    method PollWakesItself(task: nat) returns (r: Outcome)
      requires Valid() && sys.r == RSelfWake(Op.Poll(task))
      modifies this
      ensures tally == old(tally) && spurious == old(spurious)
      ensures Valid() && old(trail) <= trail && sys.r == RIdle(true) && sys.g.log == old(sys.g.log) + [r]
      ensures r.Pending? && sys.g.polled == Some(task) && WokeItself(task)
    {
      WakeByRef();
      r := Pending;
    }

    /** The MESSAGE arm. */
    method PollTakes() returns (r: Outcome)
      requires Valid() && sys.r.RTail? && sys.r.op.Poll? && sys.r.todo == StoreFenceTake
      modifies this
      ensures tally == old(tally) && spurious == old(spurious)
      ensures Valid() && old(trail) <= trail && sys.r == RIdle(true) && sys.g.log == old(sys.g.log) + [r]
      ensures r.Got? && Justified(r)
    {
      var m := StoreFenceAndTake();
      r := Got(m);
      Justify(r);
    }

    /** Its compare_exchange took the old waker back. */
    method PollReplaces(task: nat) returns (r: Outcome)
      requires Valid() && sys.r == RReplaceDrop(Op.Poll(task))
      modifies this
      ensures tally == old(tally).(wakers := old(tally).wakers + [Task(task)]) && spurious == old(spurious)
      ensures Valid() && old(trail) <= trail && sys.r == RIdle(true) && sys.g.log == old(sys.g.log) + [r]
      ensures (r.Got? || r.Disconnected? || r.Pending?) && Justified(r)
      ensures r.Pending? ==> sys.g.polled == Some(task) && Registered(task)
    {
      DropWaker();
      r := WriteAsyncWaker(task);
    }

    /** `hint::spin_loop()`: a sender that is unparking gets to make a step. */
    method SpinLoopHint()
      requires Valid() && sys.r.RSpin?
      modifies this
      ensures tally == old(tally) && spurious == old(spurious)
      ensures Valid() && old(trail) <= trail && sys.r == old(sys.r) && sys.g.log == old(sys.g.log)
      ensures StepsLeft(sys.s) < StepsLeft(old(sys.s)) || Left(sys)
    {
      Reached();
      if Waking(sys) {
        var a := SenderNext(sys);
        SenderAdvances(sys, a);
        SenderStep(a);
      }
    }

    method SpinThenLoad() returns (v: Byte)
      requires Valid() && sys.r.RSpin?
      modifies this
      ensures Valid() && old(trail) <= trail && tally == old(tally) && spurious == old(spurious)
      ensures Moved(SpinMatch(old(sys.r).op, v), old(sys.g.log))
      ensures v == MESSAGE || v == DISCONNECTED || StepsLeft(sys.s) < StepsLeft(old(sys.s))
    {
      SpinLoopHint();
      v := LoadState();
    }

    /** The sender is unparking us: spin until its final state shows. */
    method PollSpin(task: nat) returns (r: Outcome)
      requires Valid() && sys.r == RSpin(Op.Poll(task))
      modifies this
      ensures tally == old(tally) && spurious == old(spurious)
      ensures Valid() && old(trail) <= trail && sys.r == RIdle(true)
      ensures sys.g.log == old(sys.g.log) + [r] && (r.Got? || r.Disconnected?)
    {
      while true
        invariant Valid() && old(trail) <= trail && sys.r == RSpin(Op.Poll(task)) && sys.g.log == old(sys.g.log)
        invariant tally == old(tally) && spurious == old(spurious)
        decreases StepsLeft(sys.s)
      {
        var v := SpinThenLoad();
        if v == MESSAGE {
          var m := StoreFenceAndTake();
          return Got(m);
        } else if v == DISCONNECTED {
          return Disconnected;
        } else if v == UNPARKING {
          // spin more
        } else {
          assert false; // unreachable!()
        }
      }
    }

    /** The waker of a poll left pending has been woken since, or is where the sender has still
        to wake it. */
    lemma Heard(task: nat)
      requires Valid() && sys.r == RIdle(true) && sys.g.polled == Some(task)
      ensures PollHeard(sys, task)
    {
      Reached();
    }

    method Poll(task: nat) returns (r: Outcome)
      requires Valid() && sys.r == RIdle(true)
      modifies this
      ensures var t := old(tally).(calls := old(tally).calls + [Op.Poll(task)]);
        (tally == t || tally == t.(wakers := t.wakers + [Task(task)])) && spurious == old(spurious)
      ensures Valid() && old(trail) <= trail && sys.r == RIdle(true) && sys.g.log == old(sys.g.log) + [r]
      ensures (r.Got? || r.Disconnected? || r.Pending?) && Justified(r)
      ensures r.Pending? ==> PollHeard(sys, task)
    {
      var v := LoadFirst(Op.Poll(task));
      if v == EMPTY {
        r := WriteAsyncWaker(task);
      } else if v == RECEIVING {
        r := PollAgain(task);
      } else if v == MESSAGE {
        var m := StoreFenceAndTake();
        r := Got(m);
      } else if v == DISCONNECTED {
        r := Disconnected;
      } else if v == UNPARKING {
        r := PollSpin(task);
      } else {
        assert false; // unreachable!()
      }
      Justify(r);
      if r.Pending? { Heard(task); }
    }

    // ------------------------------------------------------------ observers and drops

    method IsClosed() returns (b: bool)
      requires Valid() && sys.r.RIdle?
      modifies this
      ensures tally == old(tally).(calls := old(tally).calls + [Op.IsClosed]) && spurious == old(spurious)
      ensures Valid() && old(trail) <= trail && sys.r == old(sys.r) && sys.g.log == old(sys.g.log) + [Closed(b)]
      ensures b <==> Left(sys) && message.None?
    {
      var v := LoadFirst(Op.IsClosed);
      b := v == DISCONNECTED;
      WhatIdleSees();
    }

    method HasMessage() returns (b: bool)
      requires Valid() && sys.r.RIdle?
      modifies this
      ensures tally == old(tally).(calls := old(tally).calls + [Op.HasMessage]) && spurious == old(spurious)
      ensures Valid() && old(trail) <= trail && sys.r == old(sys.r) && sys.g.log == old(sys.g.log) + [Has(b)]
      ensures b <==> Left(sys) && message.Some?
    {
      var v := LoadFirst(Op.HasMessage);
      b := v == MESSAGE;
      WhatIdleSees();
    }

    /** The arms of both drops after their swap. */
    method FinishDrop(async: bool, was: Byte)
      requires Valid() && sys.r == DropMatch(async, was).r && DropMatch(async, was).ok && was != UNPARKING
      modifies this
      ensures tally == old(tally) && spurious == old(spurious)
      ensures Valid() && old(trail) <= trail && sys.r == RDone && sys.g.log == old(sys.g.log) && LeftBehind()
    {
      if was == EMPTY {
      } else if was == MESSAGE {
        DropMessage();
        Deallocate();
      } else if was == DISCONNECTED {
        Deallocate();
      } else {
        assert false; // unreachable!()
      }
      Behind();
    }

    lemma Behind()
      requires Valid() && sys.r.RDone?
      ensures LeftBehind()
    {
      Reached();
    }

    /** A receiver that is gone left no waker, and freed the channel exactly if the sender had
        already left it; a message it never handed out was dropped. */
    ghost predicate LeftBehind()
      reads this
    {
      waker.None? && (sys.c.live <==> !Left(sys) && !sys.s.SReleased?) && (Left(sys) ==> message.None?)
    }

    /** `Drop for Receiver` */
    method DropReceiver()
      requires Valid() && sys.r == RIdle(false)
      modifies this
      ensures tally == old(tally).(calls := old(tally).calls + [Op.Drop(false)]) && spurious == old(spurious)
      ensures Valid() && old(trail) <= trail && sys.r == RDone && sys.g.log == old(sys.g.log) && LeftBehind()
    {
      var was := SwapState(DISCONNECTED);
      FinishDrop(false, was);
    }

    /** The swap of `Drop for AsyncReceiver`; `clean` if it did not return UNPARKING. */
    method SwapAway() returns (was: Byte, clean: bool)
      requires Valid() && sys.r.RDropSwap?
      modifies this
      ensures (clean <==> was != UNPARKING) && Replaced(was) && Previous().r.RDropSwap?
      ensures old(trail) <= trail && |old(trail)| < |trail| && tally == old(tally) && spurious == old(spurious)
      ensures !clean ==> Swapped(UNPARKING)
      ensures clean ==> Valid() && Moved(DropMatch(true, was), old(sys.g.log))
    {
      SenderRuns();
      was := state;
      clean := was != UNPARKING;
      if clean {
        SwapClean();
      } else {
        SwapOver();
      }
    }

    method SwapClean()
      requires Valid() && sys.r.RDropSwap? && state != UNPARKING
      modifies this`sys, this`trail, this`steps, this`tally, this`acts, this`state
      ensures Valid() && trail == old(trail) + [sys] && tally == old(tally)
      ensures Moved(DropMatch(true, old(state)), old(sys.g.log))
    {
      Advance(Swap);
      state := DISCONNECTED;
    }

    method SwapOver()
      requires Valid() && sys.r.RDropSwap? && state == UNPARKING
      modifies this`sys, this`trail, this`steps, this`tally, this`acts, this`state
      ensures Swapped(UNPARKING) && trail == old(trail) + [sys] && tally == old(tally) && Previous().r.RDropSwap?
    {
      Record(R(Swap));
      state := DISCONNECTED;
    }

    /** The latest step is the async drop's swap, over byte `was`. */
    ghost predicate Swapped(was: Byte)
      reads this
    {
      Linked() && Replaced(was) && state == DISCONNECTED && Previous().r.RDropSwap? && !Previous().g.broken &&
      REnabled(Previous(), Swap) && sys == RStep(Previous(), Swap)
    }

    /** Takes back and drops a waker that is still registered. */
    method Withdraw()
      requires Valid() && sys.r == RIdle(true)
      modifies this
      ensures tally == old(tally).(calls := old(tally).calls + [Op.Drop(true)]) && spurious == old(spurious)
      ensures Valid() && old(trail) <= trail && sys.r == RDropSwap && sys.g.log == old(sys.g.log)
    {
      var v := LoadFirst(Op.Drop(true));
      if v == RECEIVING {
        var seen := CompareExchange(RECEIVING, EMPTY);
        if seen == RECEIVING {
          DropWaker();
        }
      }
    }

    /** `Drop for AsyncReceiver`, but for its UNPARKING arm: `clean` says that arm was not taken. */
    method DropAsyncReceiver() returns (clean: bool)
      requires Valid() && sys.r == RIdle(true)
      modifies this
      ensures tally == old(tally).(calls := old(tally).calls + [Op.Drop(true)]) && spurious == old(spurious)
      ensures old(trail) <= trail && |old(trail)| < |trail|
      ensures clean ==> Valid() && sys.r == RDone && sys.g.log == old(sys.g.log) && LeftBehind()
      ensures !clean ==> Swapped(UNPARKING)
    {
      Withdraw();
      var was;
      was, clean := SwapAway();
      if clean {
        FinishDrop(true, was);
      }
    }

    // ------------------------------------------------------------------ the sender's code

    ghost predicate SenderUntouched(was: State)
      reads this
    {
      sys.s == was.s && sys.g.sent == was.g.sent && sys.g.sendOk == was.g.sendOk && sys.g.slog == was.g.slog
    }

    /** While the sender is about to take the waker, the receiver leaves it alone. */
    lemma KeepsWaker(a: RAct)
      requires Valid() && REnabled(sys, a) && sys.s.STakeWaker?
      ensures !a.PutWaker? && !a.DiscardWaker?
    {
      Reached();
    }

    method ReceiverStep(a: RAct)
      requires Valid() && REnabled(sys, a) && Current(sys, R(a)) && !MoveOf(sys, a).broken
      modifies this
      ensures Valid() && old(trail) <= trail && acts == old(acts)
      ensures SenderUntouched(old(sys)) && (sys.s.STakeWaker? ==> waker == old(waker))
    {
      if sys.s.STakeWaker? { KeepsWaker(a); }
      Advance(a);
      state, message, waker := Last(sys.c.hist), sys.c.msg, sys.c.waker;
    }

    /** Any number of receiver steps. */
    method ReceiverRuns()
      requires Valid()
      modifies this
      ensures Valid() && old(trail) <= trail && acts == old(acts)
      ensures SenderUntouched(old(sys)) && (Owns(old(sys)) ==> sys == old(sys))
      ensures sys.s.STakeWaker? ==> waker == old(waker)
    {
      Reached();
      var k: nat := *;
      while k > 0
        invariant Valid() && old(trail) <= trail && acts == old(acts)
        invariant SenderUntouched(old(sys)) && (Owns(old(sys)) ==> sys == old(sys) && sys.r.RDone?)
        invariant sys.s.STakeWaker? ==> waker == old(waker)
      {
        var a: RAct := *;
        if REnabled(sys, a) && Current(sys, R(a)) && !MoveOf(sys, a).broken {
          ReceiverStep(a);
        }
        k := k - 1;
      }
    }

    lemma CanAct(a: SAct)
      requires Sound() && SEnabled(sys, a)
      ensures !SStep(Fast, sys, a).g.broken
    {
      Reached();
    }

    method SenderActs(a: SAct)
      requires Valid() && SEnabled(sys, a) && Current(sys, S(a))
      modifies this`sys, this`trail, this`steps, this`tally, this`acts
      ensures Sound() && trail == old(trail) + [sys] && SenderShows(old(sys), a, sys) && acts == old(acts) + [a]
    {
      CanAct(a);
      SenderEffect(sys, a);
      Record(S(a));
    }

    method WriteMessageIn(m: Message)
      requires Valid() && sys.s == SAlive
      modifies this
      ensures acts == old(acts) + [WriteMessage(m)]
      ensures Valid() && old(trail) <= trail && sys.s == SPublish && sys.g.sent == Some(m)
    {
      ReceiverRuns();
      SenderActs(WriteMessage(m));
      message := Some(m);
    }

    /** `fetch_add(1)` or `fetch_xor(1)` */
    method FetchUpdate(sending: bool) returns (was: Byte)
      requires Valid() && sys.s == (if sending then SPublish else SAlive)
      modifies this
      ensures acts == old(acts) + [if sending then FetchAdd else FetchXor]
      ensures Valid() && old(trail) <= trail && sys.g.sent == old(sys.g.sent)
      ensures sys.s == SenderMatch(was, sending) && !sys.s.SPanic? && sys.g.sendOk == SendResult(sys.s)
      ensures Replaced(was) && state == (if sending then was + 1 else was ^ 1)
    {
      ReceiverRuns();
      was := state;
      FetchNow(sending);
    }

    method FetchNow(sending: bool)
      requires Valid() && sys.s == (if sending then SPublish else SAlive)
      modifies this`sys, this`trail, this`steps, this`tally, this`acts, this`state
      ensures Valid() && trail == old(trail) + [sys] && sys.g.sent == old(sys.g.sent)
      ensures acts == old(acts) + [if sending then FetchAdd else FetchXor]
      ensures sys.s == SenderMatch(old(state), sending) && !sys.s.SPanic? && sys.g.sendOk == SendResult(sys.s)
      ensures state == (if sending then old(state) + 1 else old(state) ^ 1)
    {
      WhatSenderMeets();
      if sending {
        SenderActs(FetchAdd);
        state := state + 1;
      } else {
        SenderActs(FetchXor);
        state := state ^ 1;
      }
    }

    /** The bytes the sender's first update can replace. */
    lemma WhatSenderMeets()
      requires Valid() && Before(sys)
      ensures state == EMPTY || state == RECEIVING || state == DISCONNECTED
      ensures state == DISCONNECTED <==> sys.r.RDone?
    {
      Reached();
    }

    /** A waker about to be taken is there. */
    lemma WakerReady()
      requires Valid() && sys.s.STakeWaker?
      ensures waker.Some?
    {
      Reached();
    }

    /** The RECEIVING arm of send and of drop: take the waker, write the final state, unpark. */
    method Unparks(sending: bool)
      requires Valid() && sys.s == STakeWaker(sending)
      modifies this
      ensures acts == old(acts) + WakeUp
      ensures Valid() && old(trail) <= trail && sys.s == SFinished(sending, true) && sys.g.sent == old(sys.g.sent)
      ensures sys.g.sendOk == SendResult(sys.s)
      ensures old(waker).Some? && Woke(old(waker).value)
      ensures exists i :: |old(trail)| <= i < |trail| && Publishes(trail[i], sending, old(waker).value)
    {
      var w := TakeWakerOut();
      SwapFinal(sending);
      ghost var i := |trail| - 1;
      UnparkIt(w);
      assert Publishes(trail[i], sending, w);
    }

    /** The final state is the newest byte, and waker `w` is still to be woken. */
    ghost predicate Publishes(st: State, sending: bool, w: nat) {
      st.s == SUnpark(sending, w) && st.c.hist != [] &&
      Last(st.c.hist) == if sending then MESSAGE else DISCONNECTED
    }

    /** The latest step consumed waker `w` and woke whom it is for, once. */
    ghost predicate Woke(w: nat)
      reads this
    {
      |trail| >= 2 && w < |sys.g.wakers| && sys.g.unparked == Previous().g.unparked + multiset{w} &&
      sys.g.wakes == Previous().g.wakes + [sys.g.wakers[w]]
    }

    method TakeWakerOut() returns (w: nat)
      requires Valid() && sys.s.STakeWaker?
      modifies this
      ensures acts == old(acts) + [TakeWaker]
      ensures Valid() && old(trail) <= trail && sys.s == SFinalSwap(old(sys.s).sending, w) && sys.g.sent == old(sys.g.sent)
      ensures old(waker) == Some(w) && |old(trail)| < |trail| && Previous().c.waker == Some(w) && waker.None?
    {
      ReceiverRuns();
      WakerReady();
      w := waker.value;
      SenderActs(TakeWaker);
      waker := None;
    }

    method SwapFinal(sending: bool)
      requires Valid() && sys.s.SFinalSwap? && sys.s.sending == sending
      modifies this
      ensures acts == old(acts) + [FinalSwap]
      ensures Valid() && old(trail) <= trail && sys.s == SUnpark(sending, old(sys.s).w) && sys.g.sent == old(sys.g.sent)
      ensures Publishes(sys, sending, old(sys.s).w)
    {
      ReceiverRuns();
      SenderActs(FinalSwap);
      state := if sending then MESSAGE else DISCONNECTED;
    }

    /** `waker.unpark()`: no field of the channel is touched. */
    method UnparkIt(w: nat)
      requires Valid() && sys.s.SUnpark? && sys.s.w == w
      modifies this
      ensures acts == old(acts) + [Unpark]
      ensures Valid() && old(trail) <= trail && sys.s == SFinished(old(sys.s).sending, true) && sys.g.sent == old(sys.g.sent)
      ensures sys.g.sendOk == SendResult(sys.s) && Woke(w)
    {
      ReceiverRuns();
      Reached();
      SenderNotStuck(sys);
      SenderActs(Unpark);
    }

    /** `Sender::send`. A failed send leaves a `SendError` that owns the channel. */
    method Send(m: Message) returns (ok: bool)
      requires Valid() && sys.s == SAlive
      modifies this
      ensures acts == old(acts) + [WriteMessage(m), FetchAdd] + if sys.s == SFinished(true, true) then WakeUp else []
      ensures Valid() && old(trail) <= trail && sys.g.sent == Some(m) && sys.g.sendOk == Some(ok)
      ensures if ok then sys.s.SFinished? else sys.s.SError?
    {
      WriteMessageIn(m);
      var was := FetchUpdate(true);
      if was == EMPTY {
        ok := true;
      } else if was == RECEIVING {
        Unparks(true);
        ok := true;
      } else if was == DISCONNECTED {
        ok := false;
      } else {
        assert false; // unreachable!()
      }
    }

    /** `Drop for Sender` */
    method DropSender()
      requires Valid() && sys.s == SAlive
      modifies this
      ensures acts == old(acts) + [FetchXor] +
        (if sys.s == SFinished(false, true) then WakeUp else if sys.s.SReleased? then [SFree] else [])
      ensures Valid() && old(trail) <= trail && sys.g.sent == old(sys.g.sent)
      ensures sys.s.SFinished? || (sys.s.SReleased? && !sys.c.live)
    {
      var was := FetchUpdate(false);
      if was == EMPTY {
      } else if was == RECEIVING {
        Unparks(false);
      } else if was == DISCONNECTED {
        FreeChannel();
      } else {
        assert false; // unreachable!()
      }
    }

    /** `dealloc` by the sender side. */
    method FreeChannel()
      requires Valid() && (sys.s.SErrorFree? || sys.s.SDropFree?)
      modifies this
      ensures acts == old(acts) + [SFree]
      ensures Valid() && old(trail) <= trail && sys.s.SReleased?
      ensures |trail| >= 2 && Previous().c.live && !sys.c.live
      ensures sys.g.sent == old(sys.g.sent) && sys.g.fates == old(sys.g.fates) && message == old(message)
    {
      ReceiverRuns();
      Reached();
      SenderActs(SFree);
    }

    /** `Sender::is_closed`: true only once the receiver is gone. */
    method SenderIsClosed() returns (b: bool)
      requires Valid() && sys.s == SAlive
      modifies this
      ensures |acts| == |old(acts)| + 1 && old(acts) <= acts && acts[|old(acts)|].SIsClosed?
      ensures Valid() && old(trail) <= trail && sys.s == SAlive && sys.g.slog == old(sys.g.slog) + [b]
      ensures b <==> sys.r.RDone?
    {
      ReceiverRuns();
      WhatSenderMeets();
      NewestReadable();
      b := state == DISCONNECTED;
      SenderActs(SIsClosed(|sys.c.hist| - 1));
    }

    /** `SendError::as_inner` */
    method AsInner() returns (m: Message)
      requires Valid() && sys.s.SError?
      modifies this
      ensures acts == old(acts) + [PeekError]
      ensures Valid() && old(trail) <= trail && sys.s.SError? && sys.g.sent == old(sys.g.sent) == Some(m)
    {
      ReceiverRuns();
      Reached();
      m := message.value;
      SenderActs(PeekError);
    }

    /** `SendError::into_inner`: hands the message back and frees the channel. */
    method IntoInner() returns (m: Message)
      requires Valid() && sys.s.SError?
      modifies this
      ensures acts == old(acts) + [TakeError, SFree]
      ensures Valid() && old(trail) <= trail && sys.s.SReleased? && !sys.c.live && message.None?
      ensures sys.g.sent == old(sys.g.sent) == Some(m) && sys.g.fates == [Fate.IntoInner(m)]
    {
      m := TakeFromError();
      FreeChannel();
    }

    method TakeFromError() returns (m: Message)
      requires Valid() && sys.s.SError?
      modifies this
      ensures acts == old(acts) + [TakeError]
      ensures Valid() && old(trail) <= trail && sys.s.SErrorFree? && message.None?
      ensures sys.g.sent == old(sys.g.sent) == Some(m) && sys.g.fates == [Fate.IntoInner(m)]
    {
      ReceiverRuns();
      Reached();
      m := message.value;
      SenderActs(TakeError);
      message := None;
    }

    /** `Drop for SendError` */
    method DropSendError()
      requires Valid() && sys.s.SError?
      modifies this
      ensures acts == old(acts) + [DropError, SFree]
      ensures Valid() && old(trail) <= trail && sys.s.SReleased? && !sys.c.live && message.None?
      ensures old(message).Some? && sys.g.sent == old(sys.g.sent) == old(message)
      ensures sys.g.fates == [DroppedWithError(old(message).value)]
    {
      ReceiverRuns();
      Reached();
      assert message.Some?; // the slot is initialised
      SenderActs(DropError);
      message := None;
      FreeChannel();
    }
  }
}
