/** What `recv_deadline` returns once its deadline has passed, decided by where the sender is
    at the swap(EMPTY) and by nothing that happens later. */
module Deadline {
  import opened States
  import opened Protocol
  import opened Invariant
  import opened Effects
  import opened Reachable
  import opened Progress

  /** The result of a call whose deadline passes in state `st`. */
  function Verdict(st: State): Outcome {
    if Before(st) then Timeout
    else if st.g.sent.Some? then Got(st.g.sent.value)
    else Disconnected
  }

  /** The running call will return `o`, or has just returned it. */
  predicate Decided(st: State, log: seq<Outcome>, o: Outcome) {
    match st.r
    case RTail(op, t) =>
      op.RecvDeadline? && st.g.log == log && (if t.take then st.c.msg.Some? && o == Got(st.c.msg.value) else t.out == Some(o))
    case RWaitPark(op, _) => op.RecvDeadline? && st.g.log == log && !Before(st) && o == Verdict(st)
    case RWaitCheck(op, _) => op.RecvDeadline? && st.g.log == log && !Before(st) && o == Verdict(st)
    case RIdle(async) => !async && st.g.log == log + [o]
    case _ => false
  }

  lemma DecidedSender(how: Arithmetic, st: State, log: seq<Outcome>, o: Outcome, a: SAct)
    requires Control(st) && Decided(st, log, o) && SEnabled(st, a)
    ensures Decided(SStep(how, st, a), log, o)
  {
  }

  lemma DecidedReceiver(st: State, log: seq<Outcome>, o: Outcome, a: RAct, st': State)
    requires Control(st) && Decided(st, log, o) && Busy(st.r) && REnabled(st, a) && ReceiverShows(st, a, st')
    ensures Decided(st', log, o) && !st'.g.broken
  {
  }

  lemma {:induction false} DecidedRun(how: Arithmetic, st: State, log: seq<Outcome>, o: Outcome, rest: seq<Label>)
    requires Good(st) && Decided(st, log, o) && Runs(how, st, rest) && WithinCall(how, st, rest)
    ensures Decided(After(how, st, rest), log, o)
    decreases |rest|
  {
    if rest != [] {
      match rest[0] {
        case S(a) => DecidedSender(how, st, log, o, a); GoodSender(how, st, a);
        case R(a) => ReceiverEffect(st, a); DecidedReceiver(st, log, o, a, RStep(st, a)); GoodReceiver(st, a);
      }
      DecidedRun(how, Step(how, st, rest[0]), log, o, rest[1..]);
    }
  }

  lemma DecidedAtSwap(st: State)
    requires Tidy(st) && Control(st) && st.r.RPark? && st.r.op.RecvDeadline?
    ensures REnabled(st, Swap) && Decided(RStep(st, Swap), st.g.log, Verdict(st)) && !RStep(st, Swap).g.broken
    ensures RStep(st, Swap).r == RWaitPark(st.r.op, false) <==> Waking(st)
  {
  }

  /** The swap: Timeout exactly if the sender has not begun its update; a sender caught
      unparking is waited for. */
  lemma DecidedSwap(st: State)
    requires Good(st) && st.r.RPark? && st.r.op.RecvDeadline?
    ensures REnabled(st, Swap) && Good(RStep(st, Swap)) && Decided(RStep(st, Swap), st.g.log, Verdict(st))
    ensures RStep(st, Swap).r == RWaitPark(st.r.op, false) <==> Waking(st)
  {
    DecidedAtSwap(st);
    GoodReceiver(st, Swap);
  }

  /** The call returns Timeout if and only if the sender had not begun its state update when
      the deadline's swap was made; otherwise it returns the message if one is being sent, and
      Disconnected if not. */
  lemma DeadlineExactly(how: Arithmetic, run: seq<Label>, rest: seq<Label>)
    requires Runs(how, Init, run) && !After(how, Init, run).g.broken && After(how, Init, run).c.hist != []
    requires After(how, Init, run).r.RPark? && After(how, Init, run).r.op.RecvDeadline?
    requires Runs(how, RStep(After(how, Init, run), Swap), rest) && WithinCall(how, RStep(After(how, Init, run), Swap), rest)
    requires After(how, RStep(After(how, Init, run), Swap), rest).r.RIdle?
    ensures var st := After(how, Init, run);
      After(how, RStep(st, Swap), rest).g.log == st.g.log + [Verdict(st)]
  {
    var st := After(how, Init, run);
    GoodInit();
    GoodRun(how, Init, run);
    DecidedSwap(st);
    DecidedRun(how, RStep(st, Swap), st.g.log, Verdict(st), rest);
  }
}
