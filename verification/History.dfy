/** The order in which a receiver's results can come, as a small automaton over its log. */
module History {
  import opened States
  import opened Protocol
  import opened Invariant
  import opened LedgerInvariant
  import opened Effects

  datatype Mood =
    | Open      // nothing conclusive yet
    | Promised  // has_message has returned true
    | Sealed    // the message is out, or the channel is known to be closed
    | Illegal

  function Feel(mood: Mood, o: Outcome): Mood {
    match mood
    case Open =>
      if o.Got? || o.Disconnected? || o == Closed(true) then Sealed
      else if o == Has(true) then Promised else Open
    case Promised =>
      if o.Got? then Sealed else if o == Has(true) || o == Closed(false) then Promised else Illegal
    case Sealed =>
      if o.Disconnected? || o == Closed(true) || o == Has(false) then Sealed else Illegal
    case Illegal => Illegal
  }

  function MoodOf(log: seq<Outcome>): Mood {
    if log == [] then Open else Feel(MoodOf(log[..|log| - 1]), log[|log| - 1])
  }

  lemma MoodAppend(log: seq<Outcome>, o: Outcome)
    ensures MoodOf(log + [o]) == Feel(MoodOf(log), o)
  {
    assert (log + [o])[..|log|] == log;
  }

  /** Where the receiver can be once the log has this mood. */
  predicate Fits(mood: Mood, st: State)
    requires st.c.hist != []
  {
    match mood
    case Open => true
    case Promised =>
      (match st.r
       case RIdle(_) => Ready(st) && Sending(st.s) && UpToDate(st)
       case RDropSwap => Ready(st) && Sending(st.s) && UpToDate(st)
       case RTail(op, t) => op.Drop? || t.take || (t.out.Some? && t.out.value.Got?)
       case RDone => true
       case _ => false)
    case Sealed =>
      (match st.r
       case RIdle(_) => Settled(st)
       case RDropSwap => Settled(st)
       case RTail(op, t) => op.Drop? || (!t.take && t.out == Some(Disconnected))
       case RDone => true
       case _ => false)
    case Illegal => false
  }

  predicate HistoryKept(st: State) {
    st.c.hist != [] && Fits(MoodOf(st.g.log), st)
  }

  lemma HistoryUpdate(how: Arithmetic, st: State, a: SAct)
    requires Tidy(st) && Control(st) && HistoryKept(st) && SEnabled(st, a)
    requires a.FetchAdd? || a.FetchXor? || a.FinalSwap?
    ensures HistoryKept(SStep(how, st, a))
  {
  }

  lemma HistoryOther(how: Arithmetic, st: State, a: SAct)
    requires Tidy(st) && Control(st) && HistoryKept(st) && SEnabled(st, a)
    requires !a.FetchAdd? && !a.FetchXor? && !a.FinalSwap?
    ensures HistoryKept(SStep(how, st, a))
  {
  }

  lemma HistorySender(how: Arithmetic, st: State, a: SAct)
    requires Tidy(st) && Control(st) && HistoryKept(st) && SEnabled(st, a)
    ensures HistoryKept(SStep(how, st, a))
  {
    if a.FetchAdd? || a.FetchXor? || a.FinalSwap? {
      HistoryUpdate(how, st, a);
    } else {
      HistoryOther(how, st, a);
    }
  }

  /** The mood after a receiver step. */
  function Moved(mood: Mood, m: Move): Mood {
    if m.out.Some? then Feel(mood, m.out.value) else mood
  }

  lemma FitsLook(mood: Mood, st: State, a: RAct, st': State)
    requires Control(st) && Fits(mood, st) && REnabled(st, a) && !MoveOf(st, a).broken
    requires ReceiverShows(st, a, st') && Sees(st, a, st')
    requires a.Begin?
    requires a.op.IsClosed? || a.op.HasMessage? || a.op.Drop?
    ensures Fits(Moved(mood, MoveOf(st, a)), st')
  {
  }

  lemma FitsStart(mood: Mood, st: State, a: RAct, st': State)
    requires Control(st) && Fits(mood, st) && REnabled(st, a) && !MoveOf(st, a).broken
    requires ReceiverShows(st, a, st') && Sees(st, a, st')
    requires a.Begin?
    requires !a.op.IsClosed? && !a.op.HasMessage? && !a.op.Drop?
    ensures Fits(Moved(mood, MoveOf(st, a)), st')
  {
  }

  lemma FitsBegin(mood: Mood, st: State, a: RAct, st': State)
    requires Control(st) && Fits(mood, st) && REnabled(st, a) && !MoveOf(st, a).broken
    requires ReceiverShows(st, a, st') && Sees(st, a, st')
    requires a.Begin?
    ensures Fits(Moved(mood, MoveOf(st, a)), st')
  {
    if a.op.IsClosed? || a.op.HasMessage? || a.op.Drop? {
      FitsLook(mood, st, a, st');
    } else {
      FitsStart(mood, st, a, st');
    }
  }

  lemma FitsLoad(mood: Mood, st: State, a: RAct, st': State)
    requires Control(st) && Fits(mood, st) && REnabled(st, a) && !MoveOf(st, a).broken
    requires ReceiverShows(st, a, st') && Sees(st, a, st')
    requires a.LoadAt?
    ensures Fits(Moved(mood, MoveOf(st, a)), st')
  {
  }

  lemma FitsSwap(mood: Mood, st: State, a: RAct, st': State)
    requires Control(st) && Fits(mood, st) && REnabled(st, a) && !MoveOf(st, a).broken
    requires ReceiverShows(st, a, st') && Sees(st, a, st')
    requires a.Swap?
    ensures Fits(Moved(mood, MoveOf(st, a)), st')
  {
  }

  lemma FitsTake(mood: Mood, st: State, a: RAct, st': State)
    requires Control(st) && Fits(mood, st) && REnabled(st, a) && !MoveOf(st, a).broken
    requires ReceiverShows(st, a, st') && Sees(st, a, st')
    requires st.r.RTail?
    requires a.TakeMessage?
    ensures Fits(Moved(mood, MoveOf(st, a)), st')
  {
  }

  lemma FitsItem(mood: Mood, st: State, a: RAct, st': State)
    requires Control(st) && Fits(mood, st) && REnabled(st, a) && !MoveOf(st, a).broken
    requires ReceiverShows(st, a, st') && Sees(st, a, st')
    requires st.r.RTail?
    requires !a.TakeMessage?
    ensures Fits(Moved(mood, MoveOf(st, a)), st')
  {
  }

  lemma FitsTail(mood: Mood, st: State, a: RAct, st': State)
    requires Control(st) && Fits(mood, st) && REnabled(st, a) && !MoveOf(st, a).broken
    requires ReceiverShows(st, a, st') && Sees(st, a, st')
    requires st.r.RTail?
    ensures Fits(Moved(mood, MoveOf(st, a)), st')
  {
    if a.TakeMessage? {
      FitsTake(mood, st, a, st');
    } else {
      FitsItem(mood, st, a, st');
    }
  }

  lemma FitsOther(mood: Mood, st: State, a: RAct, st': State)
    requires Control(st) && Fits(mood, st) && REnabled(st, a) && !MoveOf(st, a).broken
    requires ReceiverShows(st, a, st') && Sees(st, a, st')
    requires !a.Begin? && !a.LoadAt? && !a.Swap? && !st.r.RTail?
    ensures Fits(Moved(mood, MoveOf(st, a)), st')
  {
  }

  lemma FitsReceiver(mood: Mood, st: State, a: RAct, st': State)
    requires Control(st) && Fits(mood, st) && REnabled(st, a) && !MoveOf(st, a).broken
    requires ReceiverShows(st, a, st') && Sees(st, a, st')
    ensures Fits(Moved(mood, MoveOf(st, a)), st')
  {
    if a.Begin? {
      FitsBegin(mood, st, a, st');
    } else if a.LoadAt? {
      FitsLoad(mood, st, a, st');
    } else if a.Swap? {
      FitsSwap(mood, st, a, st');
    } else if st.r.RTail? {
      FitsTail(mood, st, a, st');
    } else {
      FitsOther(mood, st, a, st');
    }
  }

  lemma MoodStep(st: State, a: RAct)
    requires REnabled(st, a)
    ensures MoodOf(RStep(st, a).g.log) == Moved(MoodOf(st.g.log), MoveOf(st, a))
  {
    ReceiverFrame(st, a);
    var m := MoveOf(st, a);
    if m.out.Some? {
      MoodAppend(st.g.log, m.out.value);
    } else {
      assert st.g.log + [] == st.g.log;
    }
  }

  lemma HistoryReceiver(st: State, a: RAct)
    requires Tidy(st) && Control(st) && HistoryKept(st) && REnabled(st, a) && !RStep(st, a).g.broken
    ensures HistoryKept(RStep(st, a))
  {
    MoodStep(st, a);
    ReceiverEffect(st, a);
    ReceiverSees(st, a);
    FitsReceiver(MoodOf(st.g.log), st, a, RStep(st, a));
  }
}
