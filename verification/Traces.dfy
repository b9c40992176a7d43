/** What callers can rely on across calls: the order of results, the observers, timeouts and
    the wake contract of poll. Loads may be stale throughout. */
module Traces {
  import opened States
  import opened Protocol
  import opened History
  import opened Reachable

  /** The results after which a channel stays closed to its receiver. */
  predicate Seals(o: Outcome) {
    o.Got? || o.Disconnected? || o == Closed(true)
  }

  predicate AfterSeal(o: Outcome) {
    o.Disconnected? || o == Closed(true) || o == Has(false)
  }

  predicate KeepsPromise(o: Outcome) {
    o.Got? || o == Has(true) || o == Closed(false)
  }

  /** No message was handed out strictly between calls `i` and `j`. */
  predicate NoneGot(log: seq<Outcome>, i: int, j: int)
    requires -1 <= i && j <= |log|
  {
    forall k :: i < k < j ==> !log[k].Got?
  }

  /** The possible result sequences: nothing conclusive, then at most one message, then only
      disconnection; and observers that returned true stay right. */
  ghost predicate Shaped(log: seq<Outcome>) {
    (forall i, j :: 0 <= i < j < |log| && Seals(log[i]) ==> AfterSeal(log[j])) &&
    (forall i, j :: 0 <= i < j < |log| && log[i] == Has(true) && NoneGot(log, i, j) ==> KeepsPromise(log[j]))
  }

  lemma {:induction false} LegalIsShaped(log: seq<Outcome>)
    requires MoodOf(log) != Illegal
    ensures Shaped(log)
    ensures forall i :: 0 <= i < |log| && Seals(log[i]) ==> MoodOf(log) == Sealed
    ensures forall i :: 0 <= i < |log| && log[i] == Has(true) && NoneGot(log, i, |log|) ==> MoodOf(log) == Promised
    decreases |log|
  {
    if log != [] {
      var n := |log| - 1;
      var front := log[..n];
      LegalIsShaped(front);
      forall i, j | 0 <= i < j < |log| && Seals(log[i])
        ensures AfterSeal(log[j])
      {
        assert log[i] == front[i];
        assert j < n ==> log[j] == front[j];
      }
      forall i, j | 0 <= i < j < |log| && log[i] == Has(true) && NoneGot(log, i, j)
        ensures KeepsPromise(log[j])
      {
        assert log[i] == front[i] && NoneGot(front, i, j);
        assert j < n ==> log[j] == front[j];
      }
      forall i | 0 <= i < |log| && Seals(log[i])
        ensures MoodOf(log) == Sealed
      {
        assert i < n ==> log[i] == front[i];
      }
      forall i | 0 <= i < |log| && log[i] == Has(true) && NoneGot(log, i, |log|)
        ensures MoodOf(log) == Promised
      {
        assert i < n ==> log[i] == front[i] && NoneGot(front, i, n);
      }
    }
  }

  /** Results come in that order in every run, and a message handed out is the one sent. */
  lemma ResultTrace(how: Arithmetic, run: seq<Label>)
    requires Runs(how, Init, run) && !After(how, Init, run).g.broken
    ensures var st := After(how, Init, run);
      Shaped(st.g.log) &&
      (forall i :: 0 <= i < |st.g.log| && st.g.log[i].Got? ==>
        st.g.sent == Some(st.g.log[i].m) && st.g.fates == [Received(st.g.log[i].m)]) &&
      (st.r.RDone? && st.g.fates != [] && st.g.fates[0].Received? ==>
        exists i :: 0 <= i < |st.g.log| && st.g.log[i] == Got(st.g.fates[0].m))
  {
    GoodInit();
    GoodRun(how, Init, run);
    LegalIsShaped(After(how, Init, run).g.log);
  }

  /** Once `Sender::is_closed` has returned true it stays true, and a later send fails. */
  lemma SenderClosedStays(how: Arithmetic, run: seq<Label>)
    requires Runs(how, Init, run) && !After(how, Init, run).g.broken
    ensures var st := After(how, Init, run);
      (forall i, j :: 0 <= i < j < |st.g.slog| && st.g.slog[i] ==> st.g.slog[j]) &&
      (true in st.g.slog ==> st.g.sendOk != Some(true) && st.r.RDone?)
  {
    GoodInit();
    GoodRun(how, Init, run);
  }

  /** If the last poll was left pending and the sender has finished, the waker of that very
      poll has been woken since the poll began. */
  lemma PollIsWoken(how: Arithmetic, run: seq<Label>)
    requires Runs(how, Init, run) && !After(how, Init, run).g.broken
    requires After(how, Init, run).r == RIdle(true) && After(how, Init, run).g.polled.Some?
    requires After(how, Init, run).s.SFinished?
    ensures var st := After(how, Init, run);
      exists k :: st.g.mark <= k < |st.g.wakes| && st.g.wakes[k] == Task(st.g.polled.value)
  {
    GoodInit();
    GoodRun(how, Init, run);
  }
}
