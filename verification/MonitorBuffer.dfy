/** The classes of monitor.h and buffer.cpp, updated in place, one atomic step of one thread at a
    time. A thread's place in its call is kept in the threads array; Step does what the thread does
    from there to its next semaphore operation. */
module MonitorBuffer {
  import opened MonitorSpec
  import opened MonitorSafety

  class Semaphore {
    var value: nat

    constructor (value: nat)
      ensures this.value == value
    {
      this.value := value;
    }

    /** p() as it goes through: the step is enabled only when the value is positive. */
    method P()
      requires value > 0
      modifies this
      ensures value == old(value) - 1
    {
      value := value - 1;
    }

    method V()
      modifies this
      ensures value == old(value) + 1
    {
      value := value + 1;
    }
  }

  class Condition {
    const w: Semaphore
    var waitingCount: nat

    constructor ()
      ensures waitingCount == 0 && w.value == 0 && fresh(w)
    {
      w := new Semaphore(0);
      waitingCount := 0;
    }

    /** Wake one waiter, if there is one. */
    method Signal() returns (woke: bool)
      modifies this, w
      ensures woke == (old(waitingCount) > 0)
      ensures woke ==> waitingCount == old(waitingCount) - 1 && w.value == old(w.value) + 1
      ensures !woke ==> waitingCount == old(waitingCount) && w.value == old(w.value)
    {
      if waitingCount != 0 {
        waitingCount := waitingCount - 1;
        w.V();
        woke := true;
      } else {
        woke := false;
      }
    }
  }

  /** Signal in two steps: perhaps wake a waiter, then go on accordingly. */
  lemma SignalIs(m: System, n: System, t: int, x: Cond, back: Pc, on: Pc, woke: bool)
    requires 0 <= t < |m.threads| && (woke <==> Can(x, |m.values|) && m.waiting.Of(x) != 0)
    requires n == if woke then m.(waiting := m.waiting.Plus(x, -1), w := m.w.Plus(x, 1)) else m
    ensures 0 <= t < |n.threads| && Moved(n, t, if woke then back else on) == MonitorSpec.Signal(m, t, x, back, on)
  {
  }

  class Buffer {
    const s: Semaphore
    const a: Condition
    const b: Condition
    const c: Condition
    const threads: array<Thread>
    var values: seq<char>
    ghost var pushed: seq<char>
    ghost var popped: seq<char>

    ghost predicate Valid()
    {
      && a != b && a != c && b != c
      && s != a.w && s != b.w && s != c.w && a.w != b.w && a.w != c.w && b.w != c.w
    }

    ghost function State(): System
      reads this, threads, s, a, a.w, b, b.w, c, c.w
    {
      System(threads[..], s.value, PerCond(a.w.value, b.w.value, c.w.value),
             PerCond(a.waitingCount, b.waitingCount, c.waitingCount), values, pushed, popped)
    }

    constructor (ths: seq<Thread>)
      ensures Valid() && State() == Initial(ths)
      ensures fresh(s) && fresh(a) && fresh(b) && fresh(c) && fresh(a.w) && fresh(b.w) && fresh(c.w) && fresh(threads)
    {
      s := new Semaphore(1);
      a := new Condition();
      b := new Condition();
      c := new Condition();
      threads := new Thread[|ths|](i requires 0 <= i < |ths| => ths[i]);
      values, pushed, popped := [], [], [];
      new;
      assert threads[..] == ths;
    }

    predicate CanA()
      reads this
      ensures CanA() <==> Can(A, |values|)
    {
      |values| < 5
    }

    predicate CanB()
      reads this
      ensures CanB() <==> Can(B, |values|)
    {
      |values| > 3 && |values| < BUFFER_SIZE
    }

    predicate CanCons()
      reads this
      ensures CanCons() <==> Can(C, |values|)
    {
      values != []
    }

    predicate CanDo(x: Cond)
      reads this
      ensures CanDo(x) <==> Can(x, |values|)
    {
      match x case A => CanA() case B => CanB() case C => CanCons()
    }

    function ConditionOf(x: Cond): Condition {
      match x case A => a case B => b case C => c
    }

    method Goto(t: int, pc: Pc)
      requires 0 <= t < threads.Length
      modifies threads
      ensures State() == Moved(old(State()), t, pc)
    {
      threads[t] := threads[t].(pc := pc);
      assert threads[..] == old(threads[..])[t := threads[t]];
    }

    /** The `if` before the wait; a thread that has to wait registers first. */
    method Test(t: int)
      requires Valid() && 0 <= t < threads.Length
      modifies threads, a, b, c
      ensures var m, own := old(State()), Own(old(threads[t]).role);
              State() == if Can(own, |m.values|) then Moved(m, t, Acting)
                         else Moved(m.(waiting := m.waiting.Plus(own, 1)), t, Leaving)
    {
      var own := Own(threads[t].role);
      if CanDo(own) {
        Goto(t, Acting);
      } else {
        var cond := ConditionOf(own);
        cond.waitingCount := cond.waitingCount + 1;
        Goto(t, Leaving);
      }
    }

    method Wake(x: Cond) returns (woke: bool)
      requires Valid()
      modifies a, b, c, a.w, b.w, c.w
      ensures woke == (old(State()).waiting.Of(x) != 0)
      ensures State() == var m := old(State());
                         if woke then m.(waiting := m.waiting.Plus(x, -1), w := m.w.Plus(x, 1)) else m
    {
      match x
      case A => woke := a.Signal();
      case B => woke := b.Signal();
      case C => woke := c.Signal();
    }

    /** Monitor's signal, up to the s.p() that takes the thread back inside. */
    method SignalTo(t: int, x: Cond, back: Pc, on: Pc)
      requires Valid() && 0 <= t < threads.Length
      modifies threads, a, b, c, a.w, b.w, c.w
      ensures State() == MonitorSpec.Signal(old(State()), t, x, back, on)
    {
      hide PerCond.Of, PerCond.Plus, Can, Moved, MonitorSpec.Signal;
      ghost var m := State();
      var woke := false;
      if CanDo(x) {
        woke := Wake(x);
      }
      SignalIs(m, State(), t, x, back, on, woke);
      Goto(t, if woke then back else on);
    }

    method PushOrPop(t: int, v: char)
      requires Valid() && 0 <= t < threads.Length && (threads[t].role == Consumer ==> values != [])
      modifies threads, this
      ensures var m := old(State());
              State() == if old(threads[t]).role == Consumer then
                Moved(m.(values := m.values[1..], popped := m.popped + [m.values[0]]), t, FirstSignal)
              else
                Moved(m.(values := m.values + [v], pushed := m.pushed + [v]), t, FirstSignal)
    {
      if threads[t].role == Consumer {
        popped := popped + [values[0]];
        values := values[1..];
      } else {
        values := values + [v];
        pushed := pushed + [v];
      }
      Goto(t, FirstSignal);
    }

    method Finish(t: int)
      requires Valid() && 0 <= t < threads.Length && threads[t].left > 0
      modifies threads, s
      ensures var m, th := old(State()), old(threads[t]);
              State() == m.(s := m.s + 1, threads := m.threads[t := Thread(th.role, Outside, th.left - 1)])
    {
      s.V();
      threads[t] := Thread(threads[t].role, Outside, threads[t].left - 1);
      assert threads[..] == old(threads[..])[t := threads[t]];
    }

    /** One step of thread t, in any reachable state: it does what the specification says, it never
        pops an empty buffer, and the invariant holds again. */
    method Step(t: int, v: char)
      requires Valid() && Inv(State()) && Enabled(State(), t)
      modifies threads, this, s, a, b, c, a.w, b.w, c.w
      ensures Defined(old(State()), t) && State() == Next(old(State()), t, v) && Inv(State())
    {
      hide Inv;
      StepKeeps(State(), t, v);
      var th := threads[t];
      match th.pc
      case Outside =>
        s.P();
        Goto(t, Testing);
      case Testing => Test(t);
      case Leaving =>
        s.V();
        Goto(t, Parked);
      case Parked =>
        var cond := ConditionOf(Own(th.role));
        cond.w.P();
        Goto(t, Acting);
      case Acting => PushOrPop(t, v);
      case FirstSignal => SignalTo(t, First(th.role), FirstReturn, SecondSignal);
      case FirstReturn =>
        s.P();
        Goto(t, SecondSignal);
      case SecondSignal => SignalTo(t, Second(th.role), SecondReturn, Exiting);
      case SecondReturn =>
        s.P();
        Goto(t, Exiting);
      case Exiting => Finish(t);
    }
  }
}
