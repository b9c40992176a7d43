/**
 The one free that is not ordered after the sender's accesses: a deadline passes while the
 sender unparks, a spurious wakeup lets wait_for_unpark take the message through relaxed
 accesses alone, and the receiver is then dropped. `Safety.ReleasedOnce` proves that every
 other free is ordered.
 */
module FreeOrder {
  import opened States
  import opened Memory
  import opened Protocol

  /** The exact guard of `lax`: wait_for_unpark read MESSAGE without having consumed the
      sender's unpark. */
  lemma LaxExactly(st: State, a: RAct)
    requires REnabled(st, a)
    ensures RStep(st, a).g.lax <==>
      st.g.lax || (a.LoadAt? && st.r.RWaitCheck? && !st.r.woken && st.c.hist[a.i].val == MESSAGE)
  {
    LaxMove(st, a);
  }

  lemma LaxMove(st: State, a: RAct)
    requires REnabled(st, a)
    ensures MoveOf(st, a).lax <==> a.LoadAt? && st.r.RWaitCheck? && !st.r.woken && st.c.hist[a.i].val == MESSAGE
  {
  }

  // A concrete run up to the load in wait_for_unpark, in three stretches.

  function Book(t: nat, sent: Option<Message>): Ledger {
    Ledger(sent, [], None, [Thread(t)], multiset{}, multiset{}, [], map[], [], {}, [], [], 0, None, false, false)
  }

  function Registered(t: nat): State {
    State(
      Cell([Write(EMPTY, Bottom)], None, Some(0), NoAccess, Access(0, 2), Access(0, 2), true),
      SAlive, Fresh, RArm(RecvDeadline(t)), Local(View(0, 2, 0), Bottom), Book(t, None))
  }

  lemma ReachesRegistered(t: nat) returns (run: seq<Label>)
    ensures Runs(Fast, Init, run) && After(Fast, Init, run) == Registered(t)
  {
    var begin := R(Begin(RecvDeadline(t), 0));
    RunCons(Fast, Step(Fast, Init, begin), R(PutWaker), []);
    RunCons(Fast, Init, begin, [R(PutWaker)]);
    run := [begin] + [R(PutWaker)];
  }

  function Parked(t: nat): State {
    State(
      Cell([Write(EMPTY, Bottom), Write(RECEIVING, View(0, 3, 1))],
           None, Some(0), NoAccess, Access(0, 2), Access(0, 3), true),
      SAlive, Fresh, RPark(RecvDeadline(t)), Local(View(0, 3, 1), Bottom), Book(t, None))
  }

  lemma ReachesParked(t: nat) returns (run: seq<Label>)
    ensures Runs(Fast, Init, run) && After(Fast, Init, run) == Parked(t)
  {
    run := ReachesRegistered(t);
    RunSnoc(Fast, Init, run, R(Swap));
    run := run + [R(Swap)];
  }

  function Late(t: nat, m: Message): State {
    State(
      Cell([Write(EMPTY, Bottom), Write(RECEIVING, View(0, 3, 1)), Write(UNPARKING, View(2, 3, 2)),
            Write(EMPTY, View(2, 3, 2))],
           Some(m), Some(0), Access(1, 0), Access(0, 2), Access(2, 4), true),
      STakeWaker(true), Local(View(2, 3, 2), View(0, 3, 1)),
      RWaitPark(RecvDeadline(t), false), Local(View(2, 4, 3), View(2, 3, 2)), Book(t, Some(m)))
  }

  lemma LateFromParked(t: nat, m: Message) returns (run: seq<Label>)
    ensures Runs(Fast, Parked(t), run) && After(Fast, Parked(t), run) == Late(t, m)
  {
    var s0 := Parked(t);
    var s1 := Step(Fast, s0, S(WriteMessage(m)));
    var s2 := Step(Fast, s1, S(FetchAdd));
    RunCons(Fast, s2, R(Swap), []);
    RunCons(Fast, s1, S(FetchAdd), [R(Swap)]);
    RunCons(Fast, s0, S(WriteMessage(m)), [S(FetchAdd)] + [R(Swap)]);
    run := [S(WriteMessage(m))] + ([S(FetchAdd)] + [R(Swap)]);
  }

  lemma ReachesLate(t: nat, m: Message) returns (run: seq<Label>)
    ensures Runs(Fast, Init, run) && After(Fast, Init, run) == Late(t, m)
  {
    run := ReachesParked(t);
    var rest := LateFromParked(t, m);
    RunConcat(Fast, Init, run, rest);
    run := run + rest;
  }

  function Spurious(t: nat, m: Message): State {
    State(
      Cell([Write(EMPTY, Bottom), Write(RECEIVING, View(0, 3, 1)), Write(UNPARKING, View(2, 3, 2)),
            Write(EMPTY, View(2, 3, 2)), Write(MESSAGE, View(4, 3, 4))],
           Some(m), None, Access(1, 0), Access(3, 2), Access(4, 4), true),
      SUnpark(true, 0), Local(View(4, 3, 4), View(2, 3, 2)),
      RWaitCheck(RecvDeadline(t), false), Local(View(2, 5, 3), View(2, 3, 2)), Book(t, Some(m)))
  }

  lemma SpuriousFromLate(t: nat, m: Message) returns (run: seq<Label>)
    ensures Runs(Fast, Late(t, m), run) && After(Fast, Late(t, m), run) == Spurious(t, m)
  {
    var s0 := Late(t, m);
    var s1 := Step(Fast, s0, S(TakeWaker));
    var s2 := Step(Fast, s1, S(FinalSwap));
    RunCons(Fast, s2, R(Wake(true)), []);
    RunCons(Fast, s1, S(FinalSwap), [R(Wake(true))]);
    RunCons(Fast, s0, S(TakeWaker), [S(FinalSwap)] + [R(Wake(true))]);
    run := [S(TakeWaker)] + ([S(FinalSwap)] + [R(Wake(true))]);
  }

  lemma ReachesSpurious(t: nat, m: Message) returns (run: seq<Label>)
    ensures Runs(Fast, Init, run) && After(Fast, Init, run) == Spurious(t, m)
  {
    run := ReachesLate(t, m);
    var rest := SpuriousFromLate(t, m);
    RunConcat(Fast, Init, run, rest);
    run := run + rest;
  }

  function Taking(t: nat, m: Message): State {
    Spurious(t, m).(
      c := Spurious(t, m).c.(cellAcc := Access(4, 6)),
      r := RTail(RecvDeadline(t), StoreTake), rv := Local(View(2, 6, 4), View(4, 3, 4)),
      g := Book(t, Some(m)).(lax := true))
  }

  lemma ReachesTaking(t: nat, m: Message) returns (run: seq<Label>)
    ensures Runs(Fast, Init, run) && After(Fast, Init, run) == Taking(t, m)
  {
    run := ReachesSpurious(t, m);
    RunSnoc(Fast, Init, run, R(LoadAt(4)));
    run := run + [R(LoadAt(4))];
  }

  function Idle(t: nat, m: Message): State {
    State(
      Cell(Spurious(t, m).c.hist + [Write(DISCONNECTED, Bottom)],
           None, None, Access(1, 8), Access(3, 2), Access(4, 8), true),
      SUnpark(true, 0), Local(View(4, 3, 4), View(2, 3, 2)),
      RIdle(false), Local(View(2, 8, 5), View(4, 3, 4)),
      Book(t, Some(m)).(fates := [Received(m)], log := [Got(m)], lax := true))
  }

  function Marked(t: nat, m: Message): State {
    Taking(t, m).(
      c := Taking(t, m).c.(hist := Spurious(t, m).c.hist + [Write(DISCONNECTED, Bottom)], cellAcc := Access(4, 7)),
      r := RTail(RecvDeadline(t), Nothing.(take := true)), rv := Local(View(2, 7, 5), View(4, 3, 4)))
  }

  lemma ReachesMarked(t: nat, m: Message) returns (run: seq<Label>)
    ensures Runs(Fast, Init, run) && After(Fast, Init, run) == Marked(t, m)
  {
    run := ReachesTaking(t, m);
    RunSnoc(Fast, Init, run, R(StoreByte));
    run := run + [R(StoreByte)];
  }

  lemma ReachesIdle(t: nat, m: Message) returns (run: seq<Label>)
    ensures Runs(Fast, Init, run) && After(Fast, Init, run) == Idle(t, m)
  {
    run := ReachesMarked(t, m);
    RunSnoc(Fast, Init, run, R(TakeMessage));
    run := run + [R(TakeMessage)];
  }

  lemma DropsUnordered(t: nat, m: Message)
    ensures Runs(Fast, Idle(t, m), [R(Swap), R(FreeCell)])
    ensures After(Fast, Idle(t, m), [R(Swap), R(FreeCell)]).g ==
            Idle(t, m).g.(frees := [Free(ReceiverSide, true, false)])
  {
    var s1 := RStep(Idle(t, m), Swap);
    RunCons(Fast, s1, R(FreeCell), []);
    RunCons(Fast, Idle(t, m), R(Swap), [R(FreeCell)]);
  }

  /** The whole run: nothing else goes wrong in it, but the free is not ordered. */
  lemma UnorderedFree(t: nat, m: Message)
    ensures exists run ::
      Runs(Fast, Init, run) &&
      After(Fast, Init, run).g.frees == [Free(ReceiverSide, true, false)] &&
      After(Fast, Init, run).g.faults == {} && After(Fast, Init, run).g.log == [Got(m)]
  {
    var run := ReachesIdle(t, m);
    DropsUnordered(t, m);
    RunConcat(Fast, Init, run, [R(Swap), R(FreeCell)]);
  }
}
