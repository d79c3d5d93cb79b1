/** In every interleaving of any number of threads: one thread at a time holds the monitor, the
    condition a thread waited for holds when it goes on, and the buffer is a FIFO of at most nine. */
module MonitorSafety {
  import opened MonitorSpec

  // ---------------------------------------------------------------- the baton

  /** One baton: it lies in the monitor's semaphore, is on its way to a waiter in a condition's, or
      is with the thread inside. */
  ghost predicate Baton(m: System) {
    && m.s >= 0 && m.w.a >= 0 && m.w.b >= 0 && m.w.c >= 0
    && m.s + m.w.a + m.w.b + m.w.c + Total(Inside, m.threads) == 1
  }

  /** Whoever is registered on a condition is either still counted or already woken. */
  ghost predicate Counted(m: System) {
    forall x: Cond :: m.waiting.Of(x) >= 0 && Total(Registered(x), m.threads) == m.waiting.Of(x) + m.w.Of(x)
  }

  // ---------------------------------------------------------------- the predicates

  /** A thread about to push or pop, and a waiter on its way in, have their own predicate true. */
  ghost predicate ActsSoundly(m: System) {
    && (forall t :: 0 <= t < |m.threads| && m.threads[t].pc == Acting ==> Can(Own(m.threads[t].role), |m.values|))
    && (forall x: Cond :: m.w.Of(x) > 0 ==> Can(x, |m.values|))
  }

  ghost predicate Fifo(m: System) {
    m.pushed == m.popped + m.values && |m.values| <= BUFFER_SIZE
  }

  ghost predicate Inv(m: System) {
    Calling(m.threads) && Baton(m) && Counted(m) && ActsSoundly(m) && Fifo(m)
  }

  /** Threads that have not started, an empty buffer, the monitor free. */
  function Initial(threads: seq<Thread>): System {
    System(threads, 1, PerCond(0, 0, 0), PerCond(0, 0, 0), [], [], [])
  }

  ghost predicate Fresh(threads: seq<Thread>) {
    forall t :: 0 <= t < |threads| ==> threads[t].pc == Outside
  }

  lemma {:induction false} FreshTotals(threads: seq<Thread>, k: Tally)
    requires Fresh(threads) && (k == Inside || k.Registered?)
    ensures Total(k, threads) == 0
  {
    if threads != [] { FreshTotals(threads[..|threads| - 1], k); }
  }

  lemma InitialInv(threads: seq<Thread>)
    requires Fresh(threads)
    ensures Inv(Initial(threads))
  {
    FreshTotals(threads, Inside);
    forall x: Cond ensures Total(Registered(x), threads) == 0 { FreshTotals(threads, Registered(x)); }
    var m := Initial(threads);
    assert forall x: Cond :: m.w.Of(x) == 0 && m.waiting.Of(x) == 0;
  }

  // ---------------------------------------------------------------- mutual exclusion

  /** Whoever is inside is alone, and no baton is anywhere else. */
  lemma Alone(m: System, t: nat)
    requires Calling(m.threads) && Baton(m) && t < |m.threads| && IsInside(m.threads[t].pc)
    ensures m.s == 0 && m.w == PerCond(0, 0, 0)
    ensures forall u :: 0 <= u < |m.threads| && u != t ==> !IsInside(m.threads[u].pc)
  {
    TotalAtLeast(Inside, m.threads, t);
    forall u | 0 <= u < |m.threads| && u != t ensures !IsInside(m.threads[u].pc) {
      TotalOfTwo(Inside, m.threads, t, u);
    }
  }

  /** While a baton is in a semaphore, nobody is inside. */
  lemma NobodyInside(m: System)
    requires Calling(m.threads) && Baton(m) && (m.s > 0 || m.w != PerCond(0, 0, 0))
    ensures forall u :: 0 <= u < |m.threads| ==> !IsInside(m.threads[u].pc)
    ensures m.s > 0 ==> m.s == 1 && m.w == PerCond(0, 0, 0)
    ensures m.s == 0 ==> m.w == PerCond(1, 0, 0) || m.w == PerCond(0, 1, 0) || m.w == PerCond(0, 0, 1)
  {
    TotalNonNegative(Inside, m.threads);
    forall u | 0 <= u < |m.threads| ensures !IsInside(m.threads[u].pc) {
      TotalAtLeast(Inside, m.threads, u);
    }
  }

  // ---------------------------------------------------------------- every step keeps it

  /** What a step does to thread t, and to the counts. */
  lemma StepTotals(m: System, t: int, v: char, k: Tally)
    requires Enabled(m, t) && Defined(m, t)
    ensures var n := Next(m, t, v);
            && |n.threads| == |m.threads| && n.threads == m.threads[t := n.threads[t]]
            && Total(k, n.threads) == Total(k, m.threads) - Weight(k, m.threads[t]) + Weight(k, n.threads[t])
  {
    var n := Next(m, t, v);
    TotalUpdate(k, m.threads, t, n.threads[t]);
    assert n.threads == m.threads[t := n.threads[t]];
  }

  lemma StepBaton(m: System, t: int, v: char)
    requires Baton(m) && Counted(m) && Enabled(m, t) && Defined(m, t)
    ensures Baton(Next(m, t, v))
  {
    StepTotals(m, t, v, Inside);
  }

  /** A step changes the counts of one condition as it changes the thread's standing there. */
  lemma StepWaiting(m: System, t: int, v: char, x: Cond)
    requires Enabled(m, t) && Defined(m, t)
    ensures var n := Next(m, t, v);
            && |n.threads| == |m.threads|
            && n.waiting.Of(x) + n.w.Of(x) - (m.waiting.Of(x) + m.w.Of(x)) ==
               Weight(Registered(x), n.threads[t]) - Weight(Registered(x), m.threads[t])
            && (m.waiting.Of(x) >= 0 ==> n.waiting.Of(x) >= 0)
  {
  }

  lemma StepCounted(m: System, t: int, v: char)
    requires Counted(m) && Enabled(m, t) && Defined(m, t)
    ensures Counted(Next(m, t, v))
  {
    hide Next, Enabled, Defined, Weight;
    var n := Next(m, t, v);
    forall x: Cond ensures n.waiting.Of(x) >= 0 && Total(Registered(x), n.threads) == n.waiting.Of(x) + n.w.Of(x) {
      StepTotals(m, t, v, Registered(x));
      StepWaiting(m, t, v, x);
    }
  }

  lemma StepCalling(m: System, t: int, v: char)
    requires Calling(m.threads) && Enabled(m, t) && Defined(m, t)
    ensures Calling(Next(m, t, v).threads)
  {
  }

  lemma InvDefined(m: System, t: int)
    requires Inv(m) && Enabled(m, t)
    ensures Defined(m, t)
  {
  }

  lemma StepActsSoundly(m: System, t: int, v: char)
    requires Inv(m) && Enabled(m, t) && Defined(m, t) && Baton(Next(m, t, v)) && Calling(Next(m, t, v).threads)
    ensures ActsSoundly(Next(m, t, v))
  {
    var n, pc := Next(m, t, v), m.threads[t].pc;
    StepTotals(m, t, v, Inside);
    if IsInside(pc) {
      Alone(m, t);
    } else {
      NobodyInside(m);
    }
    hide Counted, Fifo, Calling;
    assert forall u :: 0 <= u < |m.threads| && u != t ==> n.threads[u] == m.threads[u];
    assert forall x: Cond :: m.w.Of(x) >= 0;
  }

  lemma StepFifo(m: System, t: int, v: char)
    requires Inv(m) && Enabled(m, t) && Defined(m, t)
    ensures Fifo(Next(m, t, v))
  {
  }

  lemma StepKeeps(m: System, t: int, v: char)
    requires Inv(m) && Enabled(m, t)
    ensures Defined(m, t) && Inv(Next(m, t, v))
  {
    InvDefined(m, t);
    StepCalling(m, t, v);
    StepBaton(m, t, v);
    StepCounted(m, t, v);
    hide Counted, Next;
    StepActsSoundly(m, t, v);
    StepFifo(m, t, v);
  }

  // ---------------------------------------------------------------- runs

  datatype Move = Move(t: int, v: char)

  ghost predicate Possible(m: System, run: seq<Move>)
    requires Inv(m)
    decreases |run|
  {
    run == [] ||
    (Enabled(m, run[0].t) && (StepKeeps(m, run[0].t, run[0].v); Possible(Next(m, run[0].t, run[0].v), run[1..])))
  }

  ghost function After(m: System, run: seq<Move>): (n: System)
    requires Inv(m) && Possible(m, run)
    ensures Inv(n)
    decreases |run|
  {
    if run == [] then m else
      StepKeeps(m, run[0].t, run[0].v);
      After(Next(m, run[0].t, run[0].v), run[1..])
  }

  /** A single `if` before the wait is enough: in every run, whenever a thread is about to push or
      pop its own predicate holds, so the buffer never overflows and is never read empty; at most one
      thread is inside; and what was taken out is, in order, what was put in. */
  lemma SingleIfSuffices(threads: seq<Thread>, run: seq<Move>)
    requires Fresh(threads)
    ensures Inv(Initial(threads))
    ensures Possible(Initial(threads), run) ==>
              var m := After(Initial(threads), run);
              && (forall t :: 0 <= t < |m.threads| && m.threads[t].pc == Acting ==>
                    match m.threads[t].role
                    case ProducerA => |m.values| < 5
                    case ProducerB => 3 < |m.values| < BUFFER_SIZE
                    case Consumer => m.values != [])
              && (forall t, u :: 0 <= t < |m.threads| && 0 <= u < |m.threads| && t != u && IsInside(m.threads[t].pc) ==>
                    !IsInside(m.threads[u].pc))
              && m.popped <= m.pushed && m.pushed[|m.popped|..] == m.values && |m.values| <= BUFFER_SIZE
  {
    InitialInv(threads);
    if Possible(Initial(threads), run) {
      var m := After(Initial(threads), run);
      forall t, u | 0 <= t < |m.threads| && 0 <= u < |m.threads| && t != u && IsInside(m.threads[t].pc)
        ensures !IsInside(m.threads[u].pc)
      {
        Alone(m, t);
      }
      forall t | 0 <= t < |m.threads| && m.threads[t].pc == Acting
        ensures Can(Own(m.threads[t].role), |m.values|)
      {
      }
    }
  }

  // ---------------------------------------------------------------- what goes in and comes out

  ghost predicate AtAct(m: System, t: int) {
    0 <= t < |m.threads| && m.threads[t].pc == Acting
  }

  /** A producer is past the wait, and about to push. */
  ghost predicate IsPut(m: System, t: int) {
    AtAct(m, t) && m.threads[t].role != Consumer
  }

  ghost predicate IsGet(m: System, t: int) {
    AtAct(m, t) && m.threads[t].role == Consumer
  }

  /** The values put in a run: those of the moves of producers past the wait, in order. */
  ghost function Puts(m: System, run: seq<Move>): seq<char>
    requires Inv(m) && Possible(m, run)
    decreases |run|
  {
    if run == [] then [] else
      StepKeeps(m, run[0].t, run[0].v);
      (if IsPut(m, run[0].t) then [run[0].v] else [])
      + Puts(Next(m, run[0].t, run[0].v), run[1..])
  }

  /** The number of values consumers take in a run. */
  ghost function Gets(m: System, run: seq<Move>): nat
    requires Inv(m) && Possible(m, run)
    decreases |run|
  {
    if run == [] then 0 else
      StepKeeps(m, run[0].t, run[0].v);
      (if IsGet(m, run[0].t) then 1 else 0)
      + Gets(Next(m, run[0].t, run[0].v), run[1..])
  }

  lemma {:induction false} RunMoves(m: System, run: seq<Move>)
    requires Inv(m) && Possible(m, run)
    ensures After(m, run).pushed == m.pushed + Puts(m, run)
    ensures |After(m, run).popped| == |m.popped| + Gets(m, run)
    decreases |run|
  {
    hide Inv, Next, Enabled, AtAct;
    if run == [] {
      assert m.pushed + [] == m.pushed;
    } else {
      StepKeeps(m, run[0].t, run[0].v);
      var n := Next(m, run[0].t, run[0].v);
      MovePuts(m, run[0].t, run[0].v);
      RunMoves(n, run[1..]);
      Grouping(m.pushed, if IsPut(m, run[0].t) then [run[0].v] else [], Puts(n, run[1..]));
    }
  }

  lemma Grouping(a: seq<char>, b: seq<char>, c: seq<char>)
    ensures (a + b) + c == a + (b + c)
  {
  }

  lemma MovePuts(m: System, t: int, v: char)
    requires Enabled(m, t) && Defined(m, t)
    ensures var n := Next(m, t, v);
            && n.pushed == m.pushed + (if IsPut(m, t) then [v] else [])
            && |n.popped| == |m.popped| + (if IsGet(m, t) then 1 else 0)
  {
  }

  /** In every run, what consumers have taken and what the buffer holds is, in order, what producers have
      put: the values given to putA and putB. */
  lemma ValuesArrive(threads: seq<Thread>, run: seq<Move>)
    requires Fresh(threads)
    ensures Inv(Initial(threads))
    ensures Possible(Initial(threads), run) ==>
              var m, puts := After(Initial(threads), run), Puts(Initial(threads), run);
              && puts == m.popped + m.values && |m.popped| == Gets(Initial(threads), run)
  {
    InitialInv(threads);
    if Possible(Initial(threads), run) {
      RunMoves(Initial(threads), run);
      assert [] + Puts(Initial(threads), run) == Puts(Initial(threads), run);
    }
  }

  // ---------------------------------------------------------------- calls

  /** How often thread t pushes or pops in a run. */
  ghost function ActsOf(m: System, run: seq<Move>, t: int): nat
    requires Inv(m) && Possible(m, run)
    decreases |run|
  {
    if run == [] then 0 else
      StepKeeps(m, run[0].t, run[0].v);
      (if run[0].t == t && AtAct(m, t) then 1 else 0) + ActsOf(Next(m, run[0].t, run[0].v), run[1..], t)
  }

  /** Calls of thread t still to push or pop. */
  ghost function ToAct(m: System, t: int): int
    requires 0 <= t < |m.threads|
  {
    m.threads[t].left - if Position(m.threads[t].pc) > 4 then 1 else 0
  }

  /** Every call pushes or pops once, and a thread makes as many calls as it was to make. */
  lemma {:induction false} OncePerCall(m: System, run: seq<Move>, t: int)
    requires Inv(m) && Possible(m, run) && 0 <= t < |m.threads|
    ensures t < |After(m, run).threads|
    ensures ActsOf(m, run, t) == ToAct(m, t) - ToAct(After(m, run), t)
    decreases |run|
  {
    if run != [] {
      StepKeeps(m, run[0].t, run[0].v);
      MoveActs(m, run[0].t, run[0].v, t);
      hide Inv, Next, Enabled, ToAct;
      OncePerCall(Next(m, run[0].t, run[0].v), run[1..], t);
    }
  }

  lemma MoveActs(m: System, u: int, v: char, t: int)
    requires Enabled(m, u) && Defined(m, u) && 0 <= t < |m.threads|
    ensures |Next(m, u, v).threads| == |m.threads|
    ensures ToAct(Next(m, u, v), t) == ToAct(m, t) - if u == t && AtAct(m, t) then 1 else 0
  {
  }
}
