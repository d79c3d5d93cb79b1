/** Runs of the kernel, from boot on, and their history: how many of its signals MM has been told of
    for each process, and how many of those it has reported as finished. */
module KernelHistory {
  import opened KernelSpec
  import opened KernelInvariant
  import opened KernelSteps
  import opened KernelSignals
  import opened KernelRuns
  import opened SendGraph
  import opened UserQueue

  // ---------------------------------------------------------------- what inform hands over

  /** The number of p's signals that inform hands to MM. */
  ghost function InformTells(k: Kernel, p: int): nat
    requires Is(k, p)
  {
    if FirstPending(k.flags, k.slots.mm) == p then |k.pending[p]| else 0
  }

  /** mini_rec calls inform when MM blocks to receive from anybody. */
  ghost function TrapTells(k: Kernel, f: Function, other: Source, p: int): nat
    requires Is(k, p)
  {
    var mm := k.slots.mm;
    if f == RECEIVE && other == ANY && k.procPtr == mm && WayOf(k, mm, ANY) == Wait && k.sigProcs > 0 then
      InformTells(Waiting(k, mm, ANY), p)
    else 0
  }

  /** cause_sig calls inform when it has held a process back and MM is waiting for work. */
  ghost function SignalTells(k: Kernel, q: int, sig: int, p: int): nat
    requires Is(k, q) && Is(k, p)
  {
    if sig !in k.pending[q] && PENDING !in k.flags[q] && MMListens(HeldBack(k, q, sig)) then
      InformTells(HeldBack(k, q, sig), p)
    else 0
  }

  ghost function ToldBy(k: Kernel, op: Op, p: int): nat
    requires Proper(k, op) && Is(k, p)
  {
    match op
    case Trap(f, other, _) => TrapTells(k, f, other, p)
    case Signal(q, sig) => SignalTells(k, q, sig, p)
    case _ => 0
  }

  // ---------------------------------------------------------------- what each operation does to the counts

  /** Signals counted for p that are no longer pending. */
  ghost function Owed(k: Kernel, p: int): int
    requires Is(k, p)
  {
    k.pendcount[p] - |k.pending[p]|
  }

  ghost predicate SameCounts(k: Kernel, k2: Kernel) {
    Shape(k) && Shape(k2) && |k2.prio| == |k.prio| && k2.pending == k.pending && k2.pendcount == k.pendcount
  }

  lemma SendCounts(k: Kernel, caller: int, dest: int, addressOk: bool)
    requires Is(k, caller) && Is(k, dest) && Wired(k.flags, k.sendto)
    ensures SameCounts(k, MiniSend(k, caller, dest, addressOk).0)
  {
  }

  lemma SameOwed(k: Kernel, k2: Kernel, p: int)
    requires SameCounts(k, k2) && Is(k, p)
    ensures Is(k2, p) && Owed(k2, p) == Owed(k, p)
  {
  }

  lemma InformOwes(k: Kernel, p: int)
    requires Is(k, p) && Wired(k.flags, k.sendto)
    ensures Is(Inform(k), p) && |Inform(k).prio| == |k.prio| && Owed(Inform(k), p) == Owed(k, p) + InformTells(k, p)
  {
    hide MiniSend, FirstPending;
    var i, k0 := FirstPending(k.flags, k.slots.mm), k.(sigProcs := k.sigProcs - 1);
    SendCounts(k0, k.slots.hardware, k.slots.mm, true);
    var k1 := MiniSend(k0, k.slots.hardware, k.slots.mm, true).0;
    assert k1.pending == k.pending && k1.pendcount == k.pendcount;
    if i < |k.flags| {
      assert Inform(k) == PickProc(k1.(pending := k1.pending[i := {}], flags := k1.flags[i := k1.flags[i] - {PENDING}]));
    }
  }

  lemma RecOwes(k: Kernel, caller: int, src: Source, p: int)
    requires Is(k, caller) && Is(k, p) && Wired(k.flags, k.sendto) && CallersInTable(k)
    ensures var r, w := MiniRec(k, caller, src), Waiting(k, caller, src);
            && Is(r, p) && |r.prio| == |k.prio| && Is(w, p)
            && Owed(r, p) == Owed(k, p)
                 + if WayOf(k, caller, src) == Wait && k.sigProcs > 0 && caller == k.slots.mm && src == ANY then InformTells(w, p) else 0
  {
    RecIs(k, caller, src);
    var w := Waiting(k, caller, src);
    assert SameCounts(k, w) && w.slots == k.slots && w.sigProcs == k.sigProcs;
    hide Waiting;
    match WayOf(k, caller, src)
    case Take(i) => assert SameCounts(k, Receive(k, caller, i));
    case TakeInterrupt =>
    case Wait => if w.sigProcs > 0 && caller == w.slots.mm && src == ANY { InformOwes(w, p); }
  }

  lemma TrapOwes(k: Kernel, f: Function, other: Source, addressOk: bool, p: int)
    requires Inv(k) && TrapAllowed(k, f, other) && Is(k, p) && CallersInTable(k)
    ensures var r := SysCall(k, f, other, addressOk).0;
            Is(r, p) && |r.prio| == |k.prio| && Owed(r, p) == Owed(k, p) + TrapTells(k, f, other, p)
  {
    hide Waiting, MiniSend, MiniRec, InformTells, WayOf, Owed, LocalOk, ReadyOk, CallersOk, Acyclic, HeldOk,
         NoMissedMessage, NoMissedInterrupt, NoMissedSignal, UsersSendrec, Current;
    var c := k.procPtr;
    if other.From? && !(0 <= other.slot < |k.prio|) {
    } else if k.prio[c] == PPRI_USER && f != BOTH {
    } else if f == RECEIVE {
      RecOwes(k, c, other, p);
    } else if other != ANY {
      SendCounts(k, c, other.slot, addressOk);
      SendKeepsWired(k, c, other.slot, addressOk);
      var k1 := MiniSend(k, c, other.slot, addressOk).0;
      RecOwes(k1, c, other, p);
      assert Owed(k1, p) == Owed(k, p) by { SameOwed(k, k1, p); }
    }
  }

  lemma SignalOwes(k: Kernel, q: int, sig: int, p: int)
    requires Is(k, q) && Is(k, p) && Wired(k.flags, k.sendto)
    ensures var r := CauseSig(k, q, sig);
            Is(r, p) && |r.prio| == |k.prio| && Owed(r, p) == Owed(k, p) + SignalTells(k, q, sig, p)
  {
    CauseIs(k, q, sig);
    if sig !in k.pending[q] {
      assert Is(Recorded(k, q, sig), p) && Owed(Recorded(k, q, sig), p) == Owed(k, p);
      if PENDING !in k.flags[q] {
        var h := HeldBack(k, q, sig);
        assert SameCounts(Recorded(k, q, sig), h);
        hide HeldBack, Recorded;
        if MMListens(h) { InformOwes(h, p); }
      }
    }
  }

  lemma {:induction false} UnholdCounts(k: Kernel)
    requires Core(k)
    ensures forall i :: 0 <= i < |k.held| ==> 0 <= k.held[i] < |k.prio|
    ensures SameCounts(k, Unhold(k))
    decreases |k.held|
  {
    forall i | 0 <= i < |k.held| ensures 0 <= k.held[i] < |k.prio| { assert k.held[i] in k.held; }
    if k.held != [] {
      ReleaseIs(k);
      assert SameCounts(k, ReleaseHeld(k));
      UnholdKeeps(ReleaseHeld(k));
      UnholdCounts(ReleaseHeld(k));
    }
  }

  lemma InterruptOwes(k: Kernel, t: int, competing: bool, p: int)
    requires Is(k, t) && Is(k, p)
    ensures var r := Interrupt(k, t, competing); Is(r, p) && |r.prio| == |k.prio| && Owed(r, p) == Owed(k, p)
  {
  }

  lemma UnholdOwes(k: Kernel, p: int)
    requires Inv(k) && Is(k, p)
    ensures forall i :: 0 <= i < |k.held| ==> 0 <= k.held[i] < |k.prio|
    ensures Is(Unhold(k), p) && |Unhold(k).prio| == |k.prio| && Owed(Unhold(k), p) == Owed(k, p)
  {
    UnholdCounts(k);
  }

  lemma RescheduledOwes(k: Kernel, p: int)
    requires Is(k, p) && Grouped(k.ready[USER_Q], k.group)
    ensures var r := Rescheduled(k); Is(r, p) && |r.prio| == |k.prio| && Owed(r, p) == Owed(k, p)
  {
  }

  lemma EndSigOwes(k: Kernel, q: int, p: int)
    requires Inv(k) && Is(k, q) && Is(k, p)
    ensures var r := EndSig(k, q).0;
            Is(r, p) && |r.prio| == |k.prio| && Owed(r, p) == Owed(k, p) - if p == q && k.pendcount[p] > 0 then 1 else 0
  {
    assert LocalAt(k, q);
  }

  lemma ExitOwes(k: Kernel, q: int, p: int)
    requires Inv(k) && Is(k, q) && Is(k, p)
    ensures Wired(k.flags, k.sendto)
    ensures Is(Exit(k, q), p) && |Exit(k, q).prio| == |k.prio| && Owed(Exit(k, q), p) == if p == q then 0 else Owed(k, p)
  {
    ExitFrame(k, q);
  }

  lemma NewMapOwes(k: Kernel, q: int, p: int)
    requires Is(k, q) && Is(k, p)
    ensures var r := NewMap(k, q); Is(r, p) && |r.prio| == |k.prio| && Owed(r, p) == Owed(k, p)
  {
  }

  lemma ForkOwes(k: Kernel, parent: int, child: int, pid: int, p: int)
    requires Is(k, parent) && Is(k, child) && Is(k, p)
    ensures var r := Fork(k, parent, child, pid);
            Is(r, p) && |r.prio| == |k.prio| && Owed(r, p) == if p == child then 0 else Owed(k, p)
  {
  }

  lemma SetGroupOwes(k: Kernel, pid: int, group: int, p: int)
    requires Is(k, p)
    ensures var r := SetGroup(k, pid, group).0; Is(r, p) && |r.prio| == |k.prio| && Owed(r, p) == Owed(k, p)
  {
  }

  /** The slot p gets a new process, or loses the one it has. */
  ghost predicate Resets(op: Op, p: int) {
    op == Died(p) || (op.Forked? && op.child == p)
  }

  /** The operations that may call inform. */
  lemma InformingOwes(k: Kernel, op: Op, p: int)
    requires Inv(k) && Allowed(k, op) && Is(k, p) && (op.Trap? || op.Signal?)
    ensures var r := Do(k, op); Is(r, p) && |r.prio| == |k.prio| && Owed(r, p) == Owed(k, p) + ToldBy(k, op, p)
  {
    InvReads(k);
    hide SysCall, CauseSig, TrapTells, SignalTells, Inv, TrapAllowed, Wired, CallersInTable, Owed;
    match op
    case Trap(f, other, addressOk) => TrapOwes(k, f, other, addressOk, p);
    case Signal(q, sig) => SignalOwes(k, q, sig, p);
  }

  lemma QuietOwes(k: Kernel, op: Op, p: int)
    requires Inv(k) && Allowed(k, op) && Is(k, p) && (op.Int? || op.Flush? || op.Quantum? || op.Mapped? || op.Grouping?)
    ensures var r := Do(k, op); Is(r, p) && |r.prio| == |k.prio| && Owed(r, p) == Owed(k, p)
  {
    InvReads(k);
    hide Interrupt, Unhold, Rescheduled, NewMap, SetGroup, Inv, IsTask, Wired, CallersInTable, Grouped, Owed;
    match op
    case Int(t, competing) => InterruptOwes(k, t, competing, p);
    case Flush => UnholdOwes(k, p);
    case Quantum => RescheduledOwes(k, p);
    case Mapped(q) => NewMapOwes(k, q, p);
    case Grouping(pid, group) => SetGroupOwes(k, pid, group, p);
  }

  lemma EndingOwes(k: Kernel, op: Op, p: int)
    requires Inv(k) && Allowed(k, op) && Is(k, p) && (op.SignalDone? || op.Died? || op.Forked?)
    ensures var r := Do(k, op);
            && Is(r, p) && |r.prio| == |k.prio|
            && Owed(r, p) == if Resets(op, p) then 0 else Owed(k, p) - if op == SignalDone(p) && k.pendcount[p] > 0 then 1 else 0
  {
    InvReads(k);
    hide EndSig, Exit, Fork, Inv, Wired, CallersInTable, Grouped, Owed, MMOwes;
    match op
    case SignalDone(q) => EndSigOwes(k, q, p);
    case Died(q) => ExitOwes(k, q, p);
    case Forked(parent, child, pid) => ForkOwes(k, parent, child, pid, p);
  }

  /** Each operation moves as many signals from pending to owed as inform is told of, and do_endsig
      takes one away. */
  lemma OpOwes(k: Kernel, op: Op, p: int)
    requires Inv(k) && Allowed(k, op) && Is(k, p)
    ensures var r := Do(k, op);
            && Is(r, p) && |r.prio| == |k.prio|
            && Owed(r, p) == if Resets(op, p) then 0
                             else Owed(k, p) + ToldBy(k, op, p) - if op == SignalDone(p) && k.pendcount[p] > 0 then 1 else 0
  {
    hide Do, Inv, Allowed, Owed;
    if op.Trap? || op.Signal? {
      InformingOwes(k, op, p);
    } else if op.SignalDone? || op.Died? || op.Forked? {
      EndingOwes(k, op, p);
    } else {
      QuietOwes(k, op, p);
    }
  }

  // ---------------------------------------------------------------- runs, with books kept

  /** A state, and for each process what has happened since it was forked: the number of its signals MM
      was told of, and of the ends MM has reported of them. */
  datatype Books = Books(k: Kernel, told: seq<nat>, done: seq<nat>)

  /** MM reports the end of a signal of p only when it was told of more than it has reported; a report
      about a process with no signal pending or unfinished is ignored. */
  ghost predicate Permitted(b: Books, op: Op)
    requires |b.told| == |b.done| == |b.k.prio|
  {
    Proper(b.k, op) && (op.SignalDone? ==> b.done[op.p] < b.told[op.p] || b.k.pendcount[op.p] == 0)
  }

  /** p_pendcount is the signals still pending, and those MM was told of and has not finished. */
  ghost predicate Balanced(b: Books) {
    && Inv(b.k) && |b.told| == |b.done| == |b.k.prio|
    && forall p :: 0 <= p < |b.k.prio| ==> b.done[p] <= b.told[p] && Owed(b.k, p) == b.told[p] - b.done[p]
  }

  lemma PermittedAllowed(b: Books, op: Op)
    requires Balanced(b) && Permitted(b, op)
    ensures Allowed(b.k, op)
  {
    if op.SignalDone? { assert Owed(b.k, op.p) == b.told[op.p] - b.done[op.p]; }
  }

  ghost function Next(b: Books, op: Op): Books
    requires Balanced(b) && Permitted(b, op)
  {
    PermittedAllowed(b, op);
    var n := |b.k.prio|;
    Books(Do(b.k, op),
          seq(n, p requires 0 <= p < n => if Resets(op, p) then 0 else b.told[p] + ToldBy(b.k, op, p)),
          seq(n, p requires 0 <= p < n =>
            if Resets(op, p) then 0
            else b.done[p] + if op == SignalDone(p) && b.done[p] < b.told[p] then 1 else 0))
  }

  /** What the books say of one process after an operation. */
  lemma NextOwes(b: Books, op: Op, p: int)
    requires Balanced(b) && Permitted(b, op) && 0 <= p < |b.k.prio|
    ensures var c := Next(b, op);
            && Is(c.k, p) && |c.k.prio| == |c.told| == |c.done| == |b.k.prio|
            && c.done[p] <= c.told[p] && Owed(c.k, p) == c.told[p] - c.done[p]
  {
    PermittedAllowed(b, op);
    assert Owed(b.k, p) == b.told[p] - b.done[p];
    hide Inv, Do, ToldBy, Allowed, Proper;
    OpOwes(b.k, op, p);
  }

  /** The equation of the counts is kept by every operation. */
  lemma NextBalanced(b: Books, op: Op)
    requires Balanced(b) && Permitted(b, op)
    ensures Balanced(Next(b, op))
  {
    PermittedAllowed(b, op);
    hide Do, ToldBy, Allowed, Permitted, Proper;
    OpKeeps(b.k, op);
    var c := Next(b, op);
    NextOwes(b, op, b.k.slots.mm);
    hide Inv, Next;
    forall p | 0 <= p < |b.k.prio| ensures Is(c.k, p) && c.done[p] <= c.told[p] && Owed(c.k, p) == c.told[p] - c.done[p] {
      NextOwes(b, op, p);
    }
  }

  ghost predicate PermittedRun(b: Books, ops: seq<Op>)
    requires Balanced(b)
    decreases |ops|
  {
    ops == [] || (Permitted(b, ops[0]) && (NextBalanced(b, ops[0]); PermittedRun(Next(b, ops[0]), ops[1..])))
  }

  ghost function Run(b: Books, ops: seq<Op>): (r: Books)
    requires Balanced(b) && PermittedRun(b, ops)
    ensures Balanced(r)
    decreases |ops|
  {
    if ops == [] then b else
      NextBalanced(b, ops[0]);
      Run(Next(b, ops[0]), ops[1..])
  }

  /** No signal is with MM. */
  ghost predicate NothingOutstanding(k: Kernel) {
    Shape(k) && forall p :: 0 <= p < |k.prio| ==> k.pendcount[p] == |k.pending[p]|
  }

  ghost function Opened(k: Kernel): (b: Books)
    requires Inv(k) && NothingOutstanding(k)
    ensures Balanced(b)
  {
    Books(k, seq(|k.prio|, _ => 0), seq(|k.prio|, _ => 0))
  }

  /** The signals of p that MM was told of in a run, since p was last forked or died. */
  ghost function Told(k: Kernel, ops: seq<Op>, p: int): nat
    requires Inv(k) && NothingOutstanding(k) && PermittedRun(Opened(k), ops) && 0 <= p < |Run(Opened(k), ops).k.prio|
  {
    Run(Opened(k), ops).told[p]
  }

  /** And those of them whose end MM has reported. */
  ghost function Done(k: Kernel, ops: seq<Op>, p: int): nat
    requires Inv(k) && NothingOutstanding(k) && PermittedRun(Opened(k), ops) && 0 <= p < |Run(Opened(k), ops).k.prio|
  {
    Run(Opened(k), ops).done[p]
  }

  /** In every run that starts with no signal outstanding, p_pendcount is the signals still pending and
      those told to MM and not finished; SIG_PENDING is set exactly while there are any; and until the
      last do_endsig the process is on no ready queue. */
  lemma SignalsCounted(k: Kernel, ops: seq<Op>, p: int)
    requires Inv(k) && NothingOutstanding(k) && PermittedRun(Opened(k), ops) && 0 <= p < |Run(Opened(k), ops).k.prio|
    ensures var r, told, done := Run(Opened(k), ops).k, Told(k, ops, p), Done(k, ops, p);
            && Is(r, p) && done <= told
            && r.pendcount[p] == |r.pending[p]| + told - done
            && (SIG_PENDING in r.flags[p] <==> done < told || r.pending[p] != {})
            && (done < told || r.pending[p] != {} ==> forall q :: 0 <= q < NQ ==> p !in r.ready[q])
  {
    var b := Run(Opened(k), ops);
    assert Owed(b.k, p) == b.told[p] - b.done[p];
    assert LocalAt(b.k, p);
    if SIG_PENDING in b.k.flags[p] { NotQueued(b.k.prio, b.k.flags, b.k.ready, b.k.slots.hardware, p); }
  }

  // ---------------------------------------------------------------- what holds in every reachable state

  /** The deadlock walk of mini_send ends within the table; a process is on the ready queue of its class
      exactly when nothing holds it back; one with signals pending or unfinished is on none; sig_procs
      counts the processes MM has not been told of; and the best process runs. */
  ghost predicate Safe(b: Books)
    requires Shape(b.k) && Wired(b.k.flags, b.k.sendto) && |b.told| == |b.done| == |b.k.prio|
  {
    var r := b.k;
    && (forall p, n: nat :: 0 <= p < |r.flags| && n >= |r.flags| ==> Walk(r.flags, r.sendto, p, n) == Ended)
    && (forall p :: 0 <= p < |r.prio| && Real(r, p) ==> (r.flags[p] == {} <==> p in r.ready[QueueOf(r.prio[p])]))
    && (forall p, q :: 0 <= p < |r.prio| && 0 <= q < NQ && (b.done[p] < b.told[p] || r.pending[p] != {}) ==> p !in r.ready[q])
    && r.sigProcs == CountPending(r.flags)
    && r.procPtr == Picked(r.ready, r.slots.idle)
  }

  /** Every Inv state has balanced books, so this is about every run from any of them. */
  lemma Reachable(b: Books, ops: seq<Op>)
    requires Balanced(b) && PermittedRun(b, ops)
    ensures Safe(Run(b, ops))
  {
    BalancedSafe(Run(b, ops));
  }

  lemma BalancedSafe(b: Books)
    requires Balanced(b)
    ensures Safe(b)
  {
    var r := b.k;
    forall p, n: nat | 0 <= p < |r.flags| && n >= |r.flags|
      ensures Walk(r.flags, r.sendto, p, n) == Ended
    {
      WalkEnds(r.flags, r.sendto, p, n);
    }
    forall p, q | 0 <= p < |r.prio| && 0 <= q < NQ && (b.done[p] < b.told[p] || r.pending[p] != {})
      ensures p !in r.ready[q]
    {
      assert LocalAt(r, p) && Owed(r, p) == b.told[p] - b.done[p];
      assert SIG_PENDING in r.flags[p];
      NotQueued(r.prio, r.flags, r.ready, r.slots.hardware, p);
    }
    forall p | 0 <= p < |r.prio| && Real(r, p)
      ensures r.flags[p] == {} <==> p in r.ready[QueueOf(r.prio[p])]
    {
      assert Runnable(r.prio, r.flags, r.slots.hardware, p) <==> r.flags[p] == {};
    }
  }

  /** From boot: main clears the table and makes every process ready, and then any run follows. */
  lemma FromBoot(k: Kernel, ops: seq<Op>)
    requires Cleared(k)
    ensures var k0 := PickProc(ReadyAll(k, |k.prio|));
            && Inv(k0) && NothingOutstanding(k0)
            && (PermittedRun(Opened(k0), ops) ==> Balanced(Run(Opened(k0), ops)) && Safe(Run(Opened(k0), ops)))
  {
    BootInv(k);
    var k0 := PickProc(ReadyAll(k, |k.prio|));
    if PermittedRun(Opened(k0), ops) { Reachable(Opened(k0), ops); }
  }
}
