/** The bounded buffer of synchronization/monitors/buffer.cpp under the monitor of
    synchronization/utils/monitor.h, run by any number of threads: one atomic step per semaphore
    operation, in any interleaving. */
module MonitorSpec {

  const BUFFER_SIZE := 9

  datatype Role = ProducerA | ProducerB | Consumer
  datatype Cond = A | B | C

  /** Where a thread is in its call. Between two semaphore operations it runs undisturbed. */
  datatype Pc =
    | Outside        // before enter's s.p()
    | Testing        // inside, at the `if` before the wait
    | Leaving        // inside, registered on its condition, before wait's s.v()
    | Parked         // before the condition's w.p()
    | Acting         // inside, before push or pop
    | FirstSignal    // inside, at the first signal
    | FirstReturn    // has signalled; before the s.p() that takes it back inside
    | SecondSignal
    | SecondReturn
    | Exiting        // inside, before leave's s.v()

  datatype Thread = Thread(role: Role, pc: Pc, left: nat)

  datatype PerCond = PerCond(a: int, b: int, c: int) {
    function Of(x: Cond): int {
      match x case A => a case B => b case C => c
    }

    function Plus(x: Cond, d: int): PerCond {
      match x
      case A => this.(a := a + d)
      case B => this.(b := b + d)
      case C => this.(c := c + d)
    }
  }

  /** s is the monitor's semaphore, w the conditions' semaphores, waiting their waitingCount. */
  datatype System = System(threads: seq<Thread>, s: int, w: PerCond, waiting: PerCond,
                           values: seq<char>, pushed: seq<char>, popped: seq<char>)

  // ---------------------------------------------------------------- the code

  predicate Can(x: Cond, size: nat) {
    match x
    case A => size < 5
    case B => size > 3 && size < BUFFER_SIZE
    case C => size != 0
  }

  /** What a thread waits for, and whom it signals, in this order. */
  function Own(r: Role): Cond {
    match r case ProducerA => A case ProducerB => B case Consumer => C
  }

  function First(r: Role): Cond {
    match r case ProducerA => B case ProducerB => A case Consumer => A
  }

  function Second(r: Role): Cond {
    match r case ProducerA => C case ProducerB => C case Consumer => B
  }

  /** A semaphore's p() blocks at zero; a thread with no calls left is finished. */
  predicate Enabled(m: System, t: int) {
    0 <= t < |m.threads| &&
    var th := m.threads[t];
    match th.pc
    case Outside => th.left > 0 && m.s > 0
    case FirstReturn => m.s > 0
    case SecondReturn => m.s > 0
    case Parked => m.w.Of(Own(th.role)) > 0
    case _ => true
  }

  /** front() and erase(begin()) of an empty vector are undefined. */
  predicate Defined(m: System, t: int) {
    0 <= t < |m.threads| &&
    var th := m.threads[t];
    && (th.pc == Acting && th.role == Consumer ==> m.values != [])
    && (th.pc == Exiting ==> th.left > 0)
  }

  function Moved(m: System, t: int, pc: Pc): System
    requires 0 <= t < |m.threads|
  {
    m.(threads := m.threads[t := m.threads[t].(pc := pc)])
  }

  /** if (can()) signal(x): wake one thread registered on x, and step outside for it. */
  function Signal(m: System, t: int, x: Cond, back: Pc, on: Pc): System
    requires 0 <= t < |m.threads|
  {
    if Can(x, |m.values|) && m.waiting.Of(x) != 0 then
      Moved(m.(waiting := m.waiting.Plus(x, -1), w := m.w.Plus(x, 1)), t, back)
    else Moved(m, t, on)
  }

  /** The next step of thread t; v is the value it puts, if it puts one. */
  function Next(m: System, t: int, v: char): System
    requires Enabled(m, t) && Defined(m, t)
  {
    var th := m.threads[t];
    match th.pc
    case Outside => Moved(m.(s := m.s - 1), t, Testing)
    case Testing =>
      if Can(Own(th.role), |m.values|) then Moved(m, t, Acting)
      else Moved(m.(waiting := m.waiting.Plus(Own(th.role), 1)), t, Leaving)
    case Leaving => Moved(m.(s := m.s + 1), t, Parked)
    case Parked => Moved(m.(w := m.w.Plus(Own(th.role), -1)), t, Acting)
    case Acting =>
      if th.role == Consumer then
        Moved(m.(values := m.values[1..], popped := m.popped + [m.values[0]]), t, FirstSignal)
      else
        Moved(m.(values := m.values + [v], pushed := m.pushed + [v]), t, FirstSignal)
    case FirstSignal => Signal(m, t, First(th.role), FirstReturn, SecondSignal)
    case FirstReturn => Moved(m.(s := m.s - 1), t, SecondSignal)
    case SecondSignal => Signal(m, t, Second(th.role), SecondReturn, Exiting)
    case SecondReturn => Moved(m.(s := m.s - 1), t, Exiting)
    case Exiting => m.(s := m.s + 1, threads := m.threads[t := Thread(th.role, Outside, th.left - 1)])
  }

  // ---------------------------------------------------------------- counting threads

  predicate IsInside(pc: Pc) {
    pc == Testing || pc == Leaving || pc == Acting || pc == FirstSignal || pc == SecondSignal || pc == Exiting
  }

  function Position(pc: Pc): (n: nat)
    ensures n < 10
  {
    match pc
    case Outside => 0 case Testing => 1 case Leaving => 2 case Parked => 3 case Acting => 4
    case FirstSignal => 5 case FirstReturn => 6 case SecondSignal => 7 case SecondReturn => 8 case Exiting => 9
  }

  datatype Tally =
    | Inside                 // threads holding the monitor
    | Registered(x: Cond)    // threads past ++waitingCount and not through w.p()
    | ProducersB             // unfinished B-producers
    | PutsA                  // calls of putA that have not pushed yet
    | Steps                  // steps left to take, at most

  function Weight(k: Tally, th: Thread): int {
    match k
    case Inside => if IsInside(th.pc) then 1 else 0
    case Registered(x) => if Own(th.role) == x && (th.pc == Leaving || th.pc == Parked) then 1 else 0
    case ProducersB => if th.role == ProducerB && th.left > 0 then 1 else 0
    case PutsA => if th.role != ProducerA then 0 else if Position(th.pc) > 4 then th.left - 1 else th.left
    case Steps => 10 * th.left - Position(th.pc)
  }

  function Total(k: Tally, ths: seq<Thread>): int {
    if ths == [] then 0 else Total(k, ths[..|ths| - 1]) + Weight(k, ths[|ths| - 1])
  }

  lemma {:induction false} TotalUpdate(k: Tally, ths: seq<Thread>, t: nat, th: Thread)
    requires t < |ths|
    ensures Total(k, ths[t := th]) == Total(k, ths) - Weight(k, ths[t]) + Weight(k, th)
  {
    var m := |ths| - 1;
    if t < m {
      TotalUpdate(k, ths[..m], t, th);
      assert ths[t := th][..m] == ths[..m][t := th];
    } else {
      assert ths[t := th][..m] == ths[..m];
    }
  }

  /** Threads in a call have calls left. */
  ghost predicate Calling(ths: seq<Thread>) {
    forall t :: 0 <= t < |ths| && ths[t].pc != Outside ==> ths[t].left > 0
  }

  lemma {:induction false} TotalAtLeast(k: Tally, ths: seq<Thread>, t: nat)
    requires t < |ths| && Calling(ths)
    ensures Total(k, ths) >= Weight(k, ths[t]) >= 0
  {
    var m := |ths| - 1;
    assert ths[m].pc != Outside ==> ths[m].left > 0;
    assert ths[t].pc != Outside ==> ths[t].left > 0;
    assert Calling(ths[..m]);
    if t < m { TotalAtLeast(k, ths[..m], t); } else { TotalNonNegative(k, ths[..m]); }
  }

  lemma {:induction false} TotalNonNegative(k: Tally, ths: seq<Thread>)
    requires Calling(ths)
    ensures Total(k, ths) >= 0
  {
    if ths != [] {
      var m := |ths| - 1;
      assert ths[m].pc != Outside ==> ths[m].left > 0;
      TotalNonNegative(k, ths[..m]);
    }
  }

  lemma TotalOfTwo(k: Tally, ths: seq<Thread>, t: nat, u: nat)
    requires t < |ths| && u < |ths| && t != u && Calling(ths) && k != Steps && k != PutsA && k != ProducersB
    ensures Total(k, ths) >= Weight(k, ths[t]) + Weight(k, ths[u])
  {
    var out := ths[t].(pc := Outside);
    TotalUpdate(k, ths, t, out);
    TotalAtLeast(k, ths[t := out], u);
  }

  /** A positive total is somebody's. */
  lemma {:induction false} TotalPositive(k: Tally, ths: seq<Thread>) returns (t: nat)
    requires Total(k, ths) > 0
    ensures t < |ths| && Weight(k, ths[t]) > 0
  {
    var m := |ths| - 1;
    if Weight(k, ths[m]) > 0 { t := m; } else { t := TotalPositive(k, ths[..m]); }
  }
}
