/**
 fetch_add(1) and fetch_xor(1) do the work of compare-and-branch: every run of one protocol
 is, label by label, a run of the other, and the two differ at most in a byte that nobody
 reads any more.
 */
module Arithmetics {
  import opened States
  import opened Memory
  import opened Protocol
  import opened Invariant
  import opened Reachable

  /** The label's operation reads the state byte. */
  predicate ReadsByte(l: Label) {
    match l
    case S(a) => a.SIsClosed? || a.FetchAdd? || a.FetchXor? || a.FinalSwap?
    case R(a) => a.Begin? || a.LoadAt? || a.Swap?
  }

  /** `b` is `a` up to the state byte; and that only once the sender side owns the channel. */
  predicate Twins(a: State, b: State) {
    b == a.(c := a.c.(hist := b.c.hist)) &&
    (b.c.hist == a.c.hist ||
     (Owns(a) && a.r.RDone? && |b.c.hist| == |a.c.hist| > 0 && b.c.hist[..|b.c.hist| - 1] == a.c.hist[..|a.c.hist| - 1]))
  }

  /** The byte left behind by an update of DISCONNECTED is never read. */
  lemma NeverRead(st: State, l: Label)
    requires Good(st) && Owns(st) && Enabled(st, l)
    ensures !ReadsByte(l)
  {
  }

  lemma TwinsFirst(st: State, x: SAct)
    requires Control(st) && SEnabled(st, x) && (x.FetchAdd? || x.FetchXor?)
    ensures Twins(SStep(Fast, st, x), SStep(Branch, st, x))
  {
    assert Exchange(Tick(st, SenderSide).sv, st.c.hist, 0, AcqRel)[..|st.c.hist|] == st.c.hist;
  }

  /** The other steps do no arithmetic. */
  lemma SameAnyway(st: State, l: Label)
    requires Enabled(st, l) && (l.S? ==> !l.sa.FetchAdd? && !l.sa.FetchXor?)
    ensures Step(Fast, st, l) == Step(Branch, st, l)
  {
  }

  lemma TwinsUpdate(st: State, l: Label)
    requires Tidy(st) && Control(st) && Enabled(st, l)
    ensures Twins(Step(Fast, st, l), Step(Branch, st, l))
  {
    if l.S? && (l.sa.FetchAdd? || l.sa.FetchXor?) {
      TwinsFirst(st, l.sa);
    } else {
      SameAnyway(st, l);
    }
  }

  predicate OwnerAct(x: SAct) {
    x.PeekError? || x.TakeError? || x.DropError? || x.SFree?
  }

  lemma OwnerActs(st: State, x: SAct)
    requires Owns(st) && SEnabled(st, x)
    ensures OwnerAct(x)
  {
  }

  lemma TwinsPeek(a: State, b: State, x: SAct)
    requires Twins(a, b) && Owns(a) && a.r.RDone? && (SEnabled(a, x) || SEnabled(b, x)) && OwnerAct(x)
    requires x.PeekError? || x.SFree?
    ensures SEnabled(a, x) && SEnabled(b, x)
    ensures Twins(SStep(Fast, a, x), SStep(Branch, b, x))
  {
  }

  lemma TwinsTake(a: State, b: State, x: SAct)
    requires Twins(a, b) && Owns(a) && a.r.RDone? && (SEnabled(a, x) || SEnabled(b, x)) && OwnerAct(x)
    requires x.TakeError? || x.DropError?
    ensures SEnabled(a, x) && SEnabled(b, x)
    ensures Twins(SStep(Fast, a, x), SStep(Branch, b, x))
  {
  }

  lemma TwinsOwned(a: State, b: State, x: SAct)
    requires Twins(a, b) && Owns(a) && a.r.RDone? && (SEnabled(a, x) || SEnabled(b, x)) && OwnerAct(x)
    ensures SEnabled(a, x) && SEnabled(b, x)
    ensures Twins(SStep(Fast, a, x), SStep(Branch, b, x))
  {
    if x.PeekError? || x.SFree? {
      TwinsPeek(a, b, x);
    } else {
      TwinsTake(a, b, x);
    }
  }

  lemma DoneStops(st: State, x: RAct)
    requires st.r.RDone?
    ensures !REnabled(st, x)
  {
  }

  lemma TwinsStep(a: State, b: State, l: Label)
    requires Tidy(a) && Control(a) && Twins(a, b) && (Enabled(a, l) || Enabled(b, l))
    ensures Enabled(a, l) && Enabled(b, l)
    ensures Twins(Step(Fast, a, l), Step(Branch, b, l))
  {
    if a.c.hist == b.c.hist {
      TwinsUpdate(a, l);
    } else {
      if l.R? {
        DoneStops(a, l.ra);
        DoneStops(b, l.ra);
      } else {
        OwnerActs(if SEnabled(a, l.sa) then a else b, l.sa);
        TwinsOwned(a, b, l.sa);
      }
    }
  }

  lemma {:induction false} TwinsRun(a: State, b: State, run: seq<Label>)
    requires Good(a) && Twins(a, b)
    requires (Runs(Fast, a, run) && !After(Fast, a, run).g.broken) || (Runs(Branch, b, run) && !After(Branch, b, run).g.broken)
    ensures Runs(Fast, a, run) && Runs(Branch, b, run)
    ensures Twins(After(Fast, a, run), After(Branch, b, run))
    decreases |run|
  {
    if run != [] {
      TwinsStep(a, b, run[0]);
      var a', b' := Step(Fast, a, run[0]), Step(Branch, b, run[0]);
      if a'.g.broken {
        if Runs(Fast, a', run[1..]) { StaysBroken(Fast, a', run[1..]); }
        if Runs(Branch, b', run[1..]) { StaysBroken(Branch, b', run[1..]); }
      }
      GoodStep(Fast, a, run[0]);
      TwinsRun(a', b', run[1..]);
    }
  }

  /** The fast protocol and the branching one have the same runs, with the same ledger. */
  lemma FastIsBranch(run: seq<Label>)
    requires (Runs(Fast, Init, run) && !After(Fast, Init, run).g.broken) ||
             (Runs(Branch, Init, run) && !After(Branch, Init, run).g.broken)
    ensures Runs(Fast, Init, run) && Runs(Branch, Init, run)
    ensures var a, b := After(Fast, Init, run), After(Branch, Init, run);
      a.g == b.g && a.s == b.s && a.r == b.r && a.c.msg == b.c.msg && a.c.waker == b.c.waker &&
      (!Owns(a) ==> a == b)
  {
    GoodInit();
    TwinsRun(Init, Init, run);
  }
}
