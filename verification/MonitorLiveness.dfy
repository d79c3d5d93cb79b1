/** When is a wake-up lost? The monitor's three conditions overlap (A below 5, B from 4 to 8, C above
    0), a thread signals at most once each, and nobody signals again on leaving; yet with one
    B-producer no thread is ever left waiting for what already holds. */
module MonitorLiveness {
  import opened MonitorSpec
  import opened MonitorSafety

  // ---------------------------------------------------------------- nobody waits for what holds

  ghost predicate Quiet(x: Cond, waiting: PerCond, size: nat) {
    waiting.Of(x) > 0 ==> !Can(x, size)
  }

  ghost predicate Settled(waiting: PerCond, size: nat) {
    forall x: Cond :: Quiet(x, waiting, size)
  }

  /** What the thread just woken on x finds. */
  ghost predicate HandedOver(x: Cond, waiting: PerCond, size: nat) {
    match x
    case A => size == 4 && waiting.b == 0 && waiting.c == 0
    case B => waiting.b == 0 && waiting.c == 0 && ((size == 4 && waiting.a == 0) || size == 8)
    case C => size == 1 && waiting.a == 0
  }

  ghost predicate Signalable(x: Cond, waiting: PerCond, size: nat) {
    waiting.Of(x) > 0 && Can(x, size) ==> HandedOver(x, waiting.Plus(x, -1), size)
  }

  ghost predicate MayAct(r: Role, waiting: PerCond, size: nat) {
    Can(Own(r), size) && (Settled(waiting, size) || HandedOver(Own(r), waiting, size))
  }

  ghost predicate Acted(r: Role, waiting: PerCond, size: nat) {
    Quiet(Own(r), waiting, size) && Signalable(First(r), waiting, size) && Signalable(Second(r), waiting, size)
  }

  ghost predicate HalfDone(r: Role, waiting: PerCond, size: nat) {
    Quiet(Own(r), waiting, size) && Quiet(First(r), waiting, size) && Signalable(Second(r), waiting, size)
  }

  /** What a thread inside the monitor knows, by where it is. */
  ghost predicate Knows(th: Thread, waiting: PerCond, size: nat) {
    match th.pc
    case Testing => Settled(waiting, size)
    case Leaving => Settled(waiting, size)
    case Acting => MayAct(th.role, waiting, size)
    case FirstSignal => Acted(th.role, waiting, size)
    case SecondSignal => HalfDone(th.role, waiting, size)
    case Exiting => Settled(waiting, size)
    case _ => true
  }

  ghost predicate NoneLost(m: System) {
    && (m.s > 0 ==> Settled(m.waiting, |m.values|))
    && (forall x: Cond :: m.w.Of(x) > 0 ==> HandedOver(x, m.waiting, |m.values|))
    && (forall t :: 0 <= t < |m.threads| ==> Knows(m.threads[t], m.waiting, |m.values|))
  }

  /** At most one B-producer, or too few calls of putA for any B-producer ever to go on. */
  ghost predicate Few(m: System) {
    Total(ProducersB, m.threads) <= 1 || |m.values| + Total(PutsA, m.threads) <= 3
  }

  lemma {:induction false} RegisteredAreProducers(ths: seq<Thread>)
    requires Calling(ths)
    ensures Total(Registered(B), ths) <= Total(ProducersB, ths)
  {
    if ths != [] {
      var m := |ths| - 1;
      assert ths[m].pc != Outside ==> ths[m].left > 0;
      RegisteredAreProducers(ths[..m]);
    }
  }

  /** Few is kept: nobody starts anew, and a push by A uses up one of its calls. */
  lemma StepFew(m: System, t: int, v: char)
    requires Inv(m) && Enabled(m, t) && Defined(m, t) && Few(m)
    ensures Few(Next(m, t, v))
  {
    StepTotals(m, t, v, ProducersB);
    StepTotals(m, t, v, PutsA);
    TotalNonNegative(PutsA, m.threads);
    var th := m.threads[t];
    assert th.pc == Acting ==> Can(Own(th.role), |m.values|);
    assert th.pc != Outside ==> th.left > 0;
  }

  lemma FewWaiters(m: System)
    requires Inv(m) && Few(m)
    ensures m.waiting.b <= 1 || |m.values| <= 3
  {
    RegisteredAreProducers(m.threads);
    TotalNonNegative(PutsA, m.threads);
    assert Total(Registered(B), m.threads) == m.waiting.Of(B) + m.w.Of(B);
  }

  // ---------------------------------------------------------------- one thread's part

  /** Where the three ranges overlap: a push or pop makes at most the next waiter's wish come true. */
  lemma Acts(r: Role, waiting: PerCond, size: nat)
    requires MayAct(r, waiting, size) && waiting.a >= 0 && waiting.b >= 0 && waiting.c >= 0
    requires waiting.b <= 1 || size <= 3
    ensures r != Consumer && (waiting.b <= 1 || size + 1 <= 3) ==> Acted(r, waiting, size + 1)
    ensures r == Consumer ==> size > 0 && Acted(r, waiting, size - 1)
  {
    assert Settled(waiting, size) ==> Quiet(A, waiting, size) && Quiet(B, waiting, size) && Quiet(C, waiting, size);
  }

  lemma SettledMeans(r: Role, waiting: PerCond, size: nat)
    ensures Settled(waiting, size) <==>
            Quiet(Own(r), waiting, size) && Quiet(First(r), waiting, size) && Quiet(Second(r), waiting, size)
    ensures Settled(waiting, size) ==> HalfDone(r, waiting, size)
  {
    assert Quiet(A, waiting, size) && Quiet(B, waiting, size) && Quiet(C, waiting, size) ==> Settled(waiting, size);
  }

  /** What thread t knows after its step; and where the baton went, that the one to come may take it. */
  lemma StepKnows(m: System, t: int, v: char)
    requires Inv(m) && NoneLost(m) && Few(m) && Enabled(m, t) && Defined(m, t)
    ensures var n := Next(m, t, v); |n.threads| == |m.threads| && Knows(n.threads[t], n.waiting, |n.values|)
  {
    hide Settled, Quiet, HandedOver, Signalable, Acted, HalfDone;
    var th, n := m.threads[t], Next(m, t, v);
    SettledMeans(th.role, m.waiting, |m.values|);
    assert Knows(th, m.waiting, |m.values|);
    match th.pc
    case Acting =>
      FewWaiters(m);
      StepKeeps(m, t, v);
      StepFew(m, t, v);
      FewWaiters(n);
      assert forall x: Cond :: m.waiting.Of(x) >= 0;
      assert m.waiting.Of(A) >= 0 && m.waiting.Of(B) >= 0 && m.waiting.Of(C) >= 0;
      Acts(th.role, m.waiting, |m.values|);
    case Testing => TestedKnows(th.role, m.waiting, |m.values|);
    case FirstSignal => NotSignalled(First(th.role), th.role, m.waiting, |m.values|);
    case SecondSignal => NotSignalled(Second(th.role), th.role, m.waiting, |m.values|);
    case _ =>
  }

  lemma TestedKnows(r: Role, waiting: PerCond, size: nat)
    requires Settled(waiting, size)
    ensures Can(Own(r), size) ==> MayAct(r, waiting, size)
    ensures !Can(Own(r), size) ==> Settled(waiting.Plus(Own(r), 1), size)
  {
    if !Can(Own(r), size) {
      forall x: Cond ensures Quiet(x, waiting.Plus(Own(r), 1), size) {
        assert Quiet(x, waiting, size);
      }
    }
  }

  lemma NotSignalled(x: Cond, r: Role, waiting: PerCond, size: nat)
    requires waiting.Of(x) >= 0
    ensures !(Can(x, size) && waiting.Of(x) != 0) ==> Quiet(x, waiting, size)
    ensures Acted(r, waiting, size) && x == First(r) && Quiet(x, waiting, size) ==> HalfDone(r, waiting, size)
    ensures HalfDone(r, waiting, size) && x == Second(r) && Quiet(x, waiting, size) ==> Settled(waiting, size)
  {
    SettledMeans(r, waiting, size);
  }

  // ---------------------------------------------------------------- every step keeps it

  /** Only thread t is inside before or after its own step, if anyone is. */
  lemma OthersOutside(m: System, t: int, v: char)
    requires Inv(m) && Enabled(m, t) && Defined(m, t)
    ensures var n := Next(m, t, v);
            && |n.threads| == |m.threads|
            && forall u :: 0 <= u < |m.threads| && u != t ==> n.threads[u] == m.threads[u] && !IsInside(n.threads[u].pc)
  {
    StepTotals(m, t, v, Inside);
    if IsInside(m.threads[t].pc) { Alone(m, t); } else { NobodyInside(m); }
  }

  lemma StepFrees(m: System, t: int, v: char)
    requires Inv(m) && NoneLost(m) && Enabled(m, t) && Defined(m, t)
    ensures var n := Next(m, t, v); n.s > 0 ==> Settled(n.waiting, |n.values|)
  {
    hide Settled, HandedOver;
    assert Knows(m.threads[t], m.waiting, |m.values|);
    if IsInside(m.threads[t].pc) { Alone(m, t); } else { NobodyInside(m); }
  }

  lemma StepHandsOver(m: System, t: int, v: char)
    requires Inv(m) && NoneLost(m) && Enabled(m, t) && Defined(m, t)
    ensures var n := Next(m, t, v); forall x: Cond :: n.w.Of(x) > 0 ==> HandedOver(x, n.waiting, |n.values|)
  {
    hide Settled, HandedOver;
    assert Knows(m.threads[t], m.waiting, |m.values|);
    if IsInside(m.threads[t].pc) { Alone(m, t); } else { NobodyInside(m); }
    assert m.waiting.Of(A) >= 0 && m.waiting.Of(B) >= 0 && m.waiting.Of(C) >= 0;
  }

  lemma StepNoneLost(m: System, t: int, v: char)
    requires Inv(m) && NoneLost(m) && Few(m) && Enabled(m, t)
    ensures Defined(m, t) && Inv(Next(m, t, v)) && NoneLost(Next(m, t, v)) && Few(Next(m, t, v))
  {
    StepKeeps(m, t, v);
    StepFew(m, t, v);
    StepFrees(m, t, v);
    StepHandsOver(m, t, v);
    StepKnows(m, t, v);
    OthersOutside(m, t, v);
    hide Settled, HandedOver, MayAct, Acted, HalfDone, Few, Inv;
  }

  lemma {:induction false} RunNoneLost(m: System, run: seq<Move>)
    requires Inv(m) && NoneLost(m) && Few(m) && Possible(m, run)
    ensures NoneLost(After(m, run))
    decreases |run|
  {
    hide Inv, NoneLost, Few, Enabled, Next;
    if run != [] {
      StepNoneLost(m, run[0].t, run[0].v);
      RunNoneLost(Next(m, run[0].t, run[0].v), run[1..]);
    }
  }

  /** No lost wake-up: whenever the monitor is free, nobody is registered on a condition that holds. */
  ghost predicate WakesUp(threads: seq<Thread>)
    requires Fresh(threads)
  {
    InitialInv(threads);
    forall run :: Possible(Initial(threads), run) ==>
      var m := After(Initial(threads), run);
      m.s > 0 ==> Settled(m.waiting, |m.values|)
  }

  lemma NoLostWakeup(threads: seq<Thread>)
    requires Fresh(threads) && Few(Initial(threads))
    ensures WakesUp(threads)
  {
    InitialInv(threads);
    var m := Initial(threads);
    assert NoneLost(m) by {
      assert m.waiting.Of(A) == 0 && m.waiting.Of(B) == 0 && m.waiting.Of(C) == 0;
    }
    forall run | Possible(m, run)
      ensures After(m, run).s > 0 ==> Settled(After(m, run).waiting, |After(m, run).values|)
    {
      RunNoneLost(m, run);
    }
  }
}
