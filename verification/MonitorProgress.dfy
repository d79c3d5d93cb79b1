/** Only wake-ups of B-producers are ever lost: in every run of any threads nobody is left waiting on A
    or C for what already holds. So every run ends, and it does not end while both a producer A and a
    consumer have calls left to make. */
module MonitorProgress {
  import opened MonitorSpec
  import opened MonitorSafety
  import opened MonitorLiveness

  // ---------------------------------------------------------------- nobody waits on A or C for what holds

  ghost predicate QuietAC(waiting: PerCond, size: nat) {
    Quiet(A, waiting, size) && Quiet(C, waiting, size)
  }

  /** What the thread just woken on x finds. */
  ghost predicate Woken(x: Cond, waiting: PerCond, size: nat) {
    match x
    case A => size == 4 && waiting.c == 0
    case B => QuietAC(waiting, size)
    case C => size == 1 && waiting.a == 0
  }

  /** What a thread inside the monitor knows of the waiters on A and C, by where it is. */
  ghost predicate KnowsAC(th: Thread, waiting: PerCond, size: nat) {
    if !IsInside(th.pc) then true
    else if th.pc == Acting then QuietAC(waiting, size) || Woken(Own(th.role), waiting, size)
    else if th.role == ProducerA && th.pc == FirstSignal then
      (waiting.a > 0 ==> size >= 5) && (waiting.c > 0 ==> size == 1)
    else if th.role == ProducerA && th.pc == SecondSignal then
      (waiting.a > 0 ==> size >= 5) && (waiting.c > 0 ==> size <= 1)
    else if th.role == Consumer && th.pc == FirstSignal then
      (waiting.a > 0 ==> size >= 4) && (waiting.c > 0 ==> size == 0)
    else QuietAC(waiting, size)
  }

  ghost predicate NoneLostAC(m: System) {
    && (m.s > 0 ==> QuietAC(m.waiting, |m.values|))
    && (forall x: Cond :: m.w.Of(x) > 0 ==> Woken(x, m.waiting, |m.values|))
    && (forall t :: 0 <= t < |m.threads| ==> KnowsAC(m.threads[t], m.waiting, |m.values|))
  }

  lemma StepKnowsAC(m: System, t: int, v: char)
    requires Inv(m) && NoneLostAC(m) && Enabled(m, t) && Defined(m, t)
    ensures var n := Next(m, t, v); |n.threads| == |m.threads| && KnowsAC(n.threads[t], n.waiting, |n.values|)
  {
    assert KnowsAC(m.threads[t], m.waiting, |m.values|);
    assert m.waiting.Of(A) >= 0 && m.waiting.Of(B) >= 0 && m.waiting.Of(C) >= 0;
    if m.threads[t].pc == Acting { StepFifo(m, t, v); }
  }

  lemma StepHandsOverAC(m: System, t: int, v: char)
    requires Inv(m) && NoneLostAC(m) && Enabled(m, t) && Defined(m, t)
    ensures var n := Next(m, t, v);
            && (n.s > 0 ==> QuietAC(n.waiting, |n.values|))
            && (forall x: Cond :: n.w.Of(x) > 0 ==> Woken(x, n.waiting, |n.values|))
  {
    assert KnowsAC(m.threads[t], m.waiting, |m.values|);
    if IsInside(m.threads[t].pc) { Alone(m, t); } else { NobodyInside(m); }
    assert m.waiting.Of(A) >= 0 && m.waiting.Of(B) >= 0 && m.waiting.Of(C) >= 0;
  }

  /** Whatever the threads, every step leaves nobody waiting on A or C for what holds. */
  lemma StepNoneLostAC(m: System, t: int, v: char)
    requires Inv(m) && NoneLostAC(m) && Enabled(m, t)
    ensures Defined(m, t) && Inv(Next(m, t, v)) && NoneLostAC(Next(m, t, v))
  {
    StepKeeps(m, t, v);
    StepHandsOverAC(m, t, v);
    StepKnowsAC(m, t, v);
    OthersOutside(m, t, v);
    hide QuietAC, Woken, Inv;
  }

  lemma {:induction false} RunNoneLostAC(m: System, run: seq<Move>)
    requires Inv(m) && NoneLostAC(m) && Possible(m, run)
    ensures NoneLostAC(After(m, run))
    decreases |run|
  {
    hide Inv, NoneLostAC, Enabled, Next;
    if run != [] {
      StepNoneLostAC(m, run[0].t, run[0].v);
      RunNoneLostAC(Next(m, run[0].t, run[0].v), run[1..]);
    }
  }

  /** In every run of any threads: whenever the monitor is free, nobody is registered on A or on C whose
      condition holds. */
  lemma OnlyBIsLost(threads: seq<Thread>, run: seq<Move>)
    requires Fresh(threads)
    ensures Inv(Initial(threads))
    ensures Possible(Initial(threads), run) ==>
              var m := After(Initial(threads), run);
              && NoneLostAC(m)
              && (m.s > 0 ==> (m.waiting.a > 0 ==> !Can(A, |m.values|)) && (m.waiting.c > 0 ==> !Can(C, |m.values|)))
  {
    InitialInv(threads);
    var m := Initial(threads);
    assert m.waiting.Of(A) == 0 && m.waiting.Of(C) == 0;
    if Possible(m, run) { RunNoneLostAC(m, run); }
  }

  // ---------------------------------------------------------------- progress

  ghost predicate Stuck(m: System) {
    forall t :: 0 <= t < |m.threads| ==> !Enabled(m, t)
  }

  ghost predicate Unfinished(m: System, r: Role) {
    exists t :: 0 <= t < |m.threads| && m.threads[t].role == r && m.threads[t].left > 0
  }

  /** A woken waiter has got past wait's leave(), since nobody is inside. */
  lemma WokenIsEnabled(m: System, x: Cond) returns (t: nat)
    requires Inv(m) && m.w.Of(x) > 0
    ensures Enabled(m, t)
  {
    NobodyInside(m);
    assert Total(Registered(x), m.threads) > 0;
    t := TotalPositive(Registered(x), m.threads);
  }

  lemma InsideIsEnabled(m: System) returns (t: nat)
    requires Inv(m) && Total(Inside, m.threads) > 0
    ensures Enabled(m, t)
  {
    t := TotalPositive(Inside, m.threads);
  }

  /** Unfinished, not enabled, and the monitor free: parked on a condition that does not hold. */
  lemma WaitsInVain(m: System, t: nat)
    requires Inv(m) && NoneLostAC(m) && m.s > 0 && t < |m.threads| && m.threads[t].left > 0 && !Enabled(m, t)
    requires m.threads[t].role != ProducerB
    ensures m.threads[t].pc == Parked && !Can(Own(m.threads[t].role), |m.values|)
  {
    NobodyInside(m);
    var x := Own(m.threads[t].role);
    TotalAtLeast(Registered(x), m.threads, t);
    assert Total(Registered(x), m.threads) == m.waiting.Of(x) + m.w.Of(x);
    assert Quiet(x, m.waiting, |m.values|);
  }

  lemma RestIsFree(m: System)
    requires Inv(m) && Stuck(m)
    ensures m.s > 0
  {
    if m.s == 0 {
      if m.w.Of(A) > 0 {
        var t := WokenIsEnabled(m, A);
      } else if m.w.Of(B) > 0 {
        var t := WokenIsEnabled(m, B);
      } else if m.w.Of(C) > 0 {
        var t := WokenIsEnabled(m, C);
      } else {
        var t := InsideIsEnabled(m);
      }
    }
  }

  /** What is left of A or C when the system is at rest waits for what does not hold. */
  lemma AtRest(m: System)
    requires Inv(m) && NoneLostAC(m) && Stuck(m)
    ensures Unfinished(m, ProducerA) ==> |m.values| >= 5
    ensures Unfinished(m, Consumer) ==> m.values == []
  {
    RestIsFree(m);
    if Unfinished(m, ProducerA) {
      var a :| 0 <= a < |m.threads| && m.threads[a].role == ProducerA && m.threads[a].left > 0;
      WaitsInVain(m, a);
    }
    if Unfinished(m, Consumer) {
      var c :| 0 <= c < |m.threads| && m.threads[c].role == Consumer && m.threads[c].left > 0;
      WaitsInVain(m, c);
    }
  }

  lemma NotStuck(m: System)
    requires Inv(m) && NoneLostAC(m) && Unfinished(m, ProducerA) && Unfinished(m, Consumer)
    ensures !Stuck(m)
  {
    if Stuck(m) { AtRest(m); }
  }

  /** Every call takes at most ten steps. */
  lemma StepCosts(m: System, t: int, v: char)
    requires Inv(m) && Enabled(m, t) && Defined(m, t)
    ensures Total(Steps, Next(m, t, v).threads) < Total(Steps, m.threads)
  {
    StepTotals(m, t, v, Steps);
    assert m.threads[t].pc != Outside ==> m.threads[t].left > 0;
  }

  lemma {:induction false} RunsEnd(m: System, run: seq<Move>)
    requires Inv(m) && Possible(m, run)
    ensures |run| + Total(Steps, After(m, run).threads) <= Total(Steps, m.threads)
    decreases |run|
  {
    if run != [] {
      StepKeeps(m, run[0].t, run[0].v);
      StepCosts(m, run[0].t, run[0].v);
      RunsEnd(Next(m, run[0].t, run[0].v), run[1..]);
    }
  }

  function Calls(threads: seq<Thread>): nat {
    if threads == [] then 0 else Calls(threads[..|threads| - 1]) + threads[|threads| - 1].left
  }

  lemma {:induction false} FreshSteps(threads: seq<Thread>)
    requires Fresh(threads)
    ensures Total(Steps, threads) == 10 * Calls(threads)
  {
    if threads != [] { FreshSteps(threads[..|threads| - 1]); }
  }

  /** Whatever the threads, and however they are interleaved, the system comes to rest within ten steps a call; and it
      comes to rest only when all producers A or all consumers are done. */
  lemma RunsToTheEnd(threads: seq<Thread>, run: seq<Move>)
    requires Fresh(threads)
    ensures Inv(Initial(threads))
    ensures Possible(Initial(threads), run) ==>
              var m := After(Initial(threads), run);
              && |run| <= 10 * Calls(threads)
              && (Stuck(m) ==> !Unfinished(m, ProducerA) || !Unfinished(m, Consumer))
              && (Stuck(m) && Unfinished(m, ProducerA) ==> |m.values| >= 5)
              && (Stuck(m) && Unfinished(m, Consumer) ==> m.values == [])
  {
    OnlyBIsLost(threads, run);
    var m0 := Initial(threads);
    if Possible(m0, run) {
      var m := After(m0, run);
      RunsEnd(m0, run);
      TotalNonNegative(Steps, m.threads);
      FreshSteps(threads);
      if Unfinished(m, ProducerA) && Unfinished(m, Consumer) { NotStuck(m); }
      if Stuck(m) { AtRest(m); }
    }
  }
}
