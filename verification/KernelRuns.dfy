/** The operations of the kernel, and boot: each trap, interrupt, scheduler call and system-task request
    keeps the invariant, and main establishes it. */
module KernelRuns {
  import opened Chains
  import opened KernelSpec
  import opened KernelInvariant
  import opened KernelSteps
  import opened KernelSignals
  import opened SendGraph
  import opened UserQueue

  // ---------------------------------------------------------------- users send in order to receive

  /** Nobody but `but` starts to send, or goes on sending without receiving. */
  ghost predicate SendrecKept(flags: seq<set<Flag>>, flags': seq<set<Flag>>, but: int) {
    && |flags'| == |flags|
    && forall p :: 0 <= p < |flags| && p != but && SENDING in flags'[p] ==>
         SENDING in flags[p] && (RECEIVING in flags[p] ==> RECEIVING in flags'[p])
  }

  lemma UsersKept(k: Kernel, k2: Kernel, but: int)
    requires Shape(k) && Shape(k2) && UsersSendrec(k) && SendrecKept(k.flags, k2.flags, but)
    requires forall p :: 0 <= p < |k.prio| ==> k2.prio[p] == k.prio[p] || k2.prio[p] == PPRI_NONE
    requires |k2.prio| == |k.prio|
    requires 0 <= but < |k.prio| && k2.prio[but] == PPRI_USER && SENDING in k2.flags[but] ==> RECEIVING in k2.flags[but]
    ensures UsersSendrec(k2)
  {
  }

  lemma SendUsers(k: Kernel, caller: int, dest: int, addressOk: bool)
    requires Core(k) && Real(k, caller) && Is(k, dest) && k.flags[caller] == {} && dest != caller
    ensures var k2 := MiniSend(k, caller, dest, addressOk).0; k2.prio == k.prio && SendrecKept(k.flags, k2.flags, caller)
  {
    BlockFrame(k, caller, {SENDING});
    UnblockFrame(k, dest, RECEIVING);
  }

  lemma InformUsers(k: Kernel)
    requires Almost(k) && MMListens(k)
    ensures Inform(k).prio == k.prio && SendrecKept(k.flags, Inform(k).flags, -1)
  {
    InformIs(k);
    assert LocalAt(k, k.slots.mm);
    UnblockFrame(k, k.slots.mm, RECEIVING);
  }

  lemma WaitingUsers(k: Kernel, p: int, src: Source)
    requires Is(k, p)
    ensures var w := Waiting(k, p, src);
            && w.prio == k.prio && w.slots == k.slots && SendrecKept(k.flags, w.flags, -1) && RECEIVING in w.flags[p]
  {
  }

  lemma ThenInform(w: Kernel, k: Kernel)
    requires Almost(w) && MMListens(w) && SendrecKept(k.flags, w.flags, -1)
    ensures Inform(w).prio == w.prio && SendrecKept(k.flags, Inform(w).flags, -1)
  {
    InformUsers(w);
  }

  lemma WaitUsers(k: Kernel, p: int, src: Source)
    requires Core(k) && Real(k, p) && MayReceive(k, p, src) && WayOf(k, p, src) == Wait && CallersInTable(k)
    ensures var k2 := MiniRec(k, p, src); k2.prio == k.prio && SendrecKept(k.flags, k2.flags, -1)
    ensures p != k.slots.mm ==> MiniRec(k, p, src) == Waiting(k, p, src)
  {
    RecIs(k, p, src);
    WaitKeeps(k, p, src);
    WaitingUsers(k, p, src);
    var w := Waiting(k, p, src);
    if p == k.slots.mm && src == ANY { WaitingListens(k, p); }
    hide Almost, Core, Waiting, MiniRec, Inform, SendrecKept, MMListens, WayOf, MayReceive;
    if w.sigProcs > 0 && p == w.slots.mm && src == ANY { ThenInform(w, k); }
  }

  lemma WaitingListens(k: Kernel, p: int)
    requires Is(k, p) && p == k.slots.mm
    ensures var w := Waiting(k, p, ANY); Shape(w) && MMListens(w)
  {
  }

  lemma RecUsers(k: Kernel, p: int, src: Source)
    requires Core(k) && Real(k, p) && MayReceive(k, p, src) && CallersInTable(k)
    ensures var k2 := MiniRec(k, p, src); k2.prio == k.prio && SendrecKept(k.flags, k2.flags, -1)
  {
    RecIs(k, p, src);
    match WayOf(k, p, src)
    case Take(i) =>
      CallerIsSending(k, p, i);
      UnblockFrame(k.(callers := k.callers[p := Dropped(k.callers[p], i)]), k.callers[p][i], SENDING);
    case TakeInterrupt =>
    case Wait => WaitUsers(k, p, src);
  }

  // ---------------------------------------------------------------- the process now running

  /** The process that traps is runnable, and heads the highest queue that is not empty. */
  lemma Running(k: Kernel)
    requires Inv(k) && k.procPtr != k.slots.idle
    ensures var p := k.procPtr;
            && Real(k, p) && k.flags[p] == {}
            && k.ready[QueueOf(k.prio[p])] != [] && k.ready[QueueOf(k.prio[p])][0] == p
            && (forall q :: 0 <= q < QueueOf(k.prio[p]) ==> k.ready[q] == [])
  {
  }

  lemma SendCurrent(k: Kernel, caller: int, dest: int, addressOk: bool)
    requires Core(k) && Current(k) && Real(k, caller) && Is(k, dest) && k.flags[caller] == {} && dest != caller
    requires k.prio[caller] != PPRI_USER
    ensures Current(MiniSend(k, caller, dest, addressOk).0)
  {
    assert Runnable(k.prio, k.flags, k.slots.hardware, caller);
    assert caller in k.ready[QueueOf(k.prio[caller])];
    DeliverCurrent(k, dest);
    UnreadyCurrent(k, caller);
  }

  lemma RecCurrent(k: Kernel, p: int, src: Source)
    requires Core(k) && Current(k) && Real(k, p) && MayReceive(k, p, src) && CallersInTable(k)
    requires k.prio[p] != PPRI_USER
    ensures Current(MiniRec(k, p, src))
  {
    RecIs(k, p, src);
    match WayOf(k, p, src)
    case Take(i) =>
      CallerIsSending(k, p, i);
      assert Runnable(k.prio, k.flags, k.slots.hardware, p);
      assert p in k.ready[QueueOf(k.prio[p])];
      var k1 := k.(callers := k.callers[p := Dropped(k.callers[p], i)]);
      var s := k.callers[p][i];
      ReadyCurrent(k1.(flags := k1.flags[s := k1.flags[s] - {SENDING}]), s);
    case TakeInterrupt =>
    case Wait => WaitCurrent(k, p, src);
  }

  lemma WaitCurrent(k: Kernel, p: int, src: Source)
    requires Core(k) && Current(k) && Real(k, p) && MayReceive(k, p, src) && CallersInTable(k) && WayOf(k, p, src) == Wait
    ensures Current(MiniRec(k, p, src))
  {
    RecIs(k, p, src);
    WaitKeeps(k, p, src);
    var w := Waiting(k, p, src);
    UnreadyCurrent(k.(getfrom := k.getfrom[p := src]), p);
    assert Current(w);
    BlockFrame(k.(getfrom := k.getfrom[p := src]), p, {RECEIVING});
    hide Almost, Core, Waiting, MiniRec, Inform;
    if w.sigProcs > 0 && p == w.slots.mm && src == ANY { InformKeeps(w); }
  }

  // ---------------------------------------------------------------- traps

  ghost predicate TrapAllowed(k: Kernel, f: Function, other: Source) {
    && Is(k, k.procPtr) && k.procPtr != k.slots.idle
    && (k.prio[k.procPtr] != PPRI_USER && f != RECEIVE ==> other != ANY && other != From(k.procPtr))
  }

  lemma RecTrap(k: Kernel, p: int, src: Source)
    requires Inv(k) && Real(k, p) && MayReceive(k, p, src) && k.prio[p] != PPRI_USER
    ensures CallersInTable(k) && Inv(MiniRec(k, p, src))
  {
    CallersAreInTable(k);
    RecKeeps(k, p, src);
    RecUsers(k, p, src);
    RecCurrent(k, p, src);
    hide Almost, Current, MiniRec, SendrecKept, UsersSendrec, MayReceive;
    UsersKept(k, MiniRec(k, p, src), -1);
  }

  /** A trap by a task or server. */
  lemma SystemTrapKeeps(k: Kernel, f: Function, other: Source, addressOk: bool)
    requires Inv(k) && TrapAllowed(k, f, other) && k.prio[k.procPtr] != PPRI_USER
    ensures CallersInTable(k) && Inv(SysCall(k, f, other, addressOk).0)
  {
    hide LocalOk, ReadyOk, CallersOk, Acyclic, HeldOk, NoMissedMessage, NoMissedInterrupt, NoMissedSignal, CountPending, MiniRec;
    CallersAreInTable(k);
    Running(k);
    var p := k.procPtr;
    if other.From? && !(0 <= other.slot < |k.prio|) {
    } else if f == RECEIVE {
      RecTrap(k, p, other);
    } else {
      SendAtOnce(k, p, other.slot, addressOk);
      SendKeepsWired(k, p, other.slot, addressOk);
      hide Almost, Current, MiniSend, MiniRec, SendrecKept, UsersSendrec, MayReceive;
      if f == BOTH && MiniSend(k, p, other.slot, addressOk).1 == OK {
        RecTrap(MiniSend(k, p, other.slot, addressOk).0, p, other);
      }
    }
  }

  /** Where a process stands after mini_send accepted its message. */
  lemma AfterSend(k: Kernel, p: int, d: int, addressOk: bool)
    requires Wired(k.flags, k.sendto) && Real(k, p) && k.flags[p] == {} && Is(k, d) && d != p
    ensures var (k1, r) := MiniSend(k, p, d, addressOk);
            Real(k1, p) && (r == OK ==> MayReceive(k1, p, From(d)))
  {
    BlockFrame(k, p, {SENDING});
    UnblockFrame(k, d, RECEIVING);
    assert {} + {SENDING} == {SENDING};
  }

  lemma SendAtOnce(k: Kernel, p: int, d: int, addressOk: bool)
    requires Inv(k) && Real(k, p) && k.flags[p] == {} && k.prio[p] != PPRI_USER && Is(k, d) && d != p
    ensures var (k1, r) := MiniSend(k, p, d, addressOk);
            Inv(k1) && Real(k1, p) && (r == OK ==> MayReceive(k1, p, From(d))) && k1.prio == k.prio
  {
    SendKeeps(k, p, d, addressOk);
    SendUsers(k, p, d, addressOk);
    AfterSend(k, p, d, addressOk);
    SendCurrent(k, p, d, addressOk);
    hide Almost, MiniSend, Current, SendrecKept, UsersSendrec, MayReceive;
    UsersKept(k, MiniSend(k, p, d, addressOk).0, p);
  }

  /** A user's sendrec to FS or MM: whichever way the send goes, the user ends up waiting for the
      answer, and the next process is picked. */
  lemma UserTrapKeeps(k: Kernel, d: int)
    requires Inv(k) && TrapAllowed(k, BOTH, From(d)) && k.prio[k.procPtr] == PPRI_USER && Is(k, d)
    requires MiniSend(k, k.procPtr, d, true).1 == OK
    ensures CallersInTable(k)
    ensures var r := SysCall(k, BOTH, From(d), true).0; Inv(r) && Is(r, k.procPtr) && RECEIVING in r.flags[k.procPtr]
  {
    CallersAreInTable(k);
    Running(k);
    var p := k.procPtr;
    var k1 := MiniSend(k, p, d, true).0;
    SendKeepsWired(k, p, d, true);
    TrapIs(k, d);
    UserMustWait(k, d);
    UserPicked(k, d);
    hide MiniSend, SysCall, Current, UsersSendrec, MayReceive, MiniRec, WayOf, SendrecKept, TrapAllowed;
    SendKeeps(k, p, d, true);
    SendUsers(k, p, d, true);
    RecKeeps(k1, p, From(d));
    WaitUsers(k1, p, From(d));
    WaitingUsers(k1, p, From(d));
    SendrecTwice(k.flags, k1.flags, Waiting(k1, p, From(d)).flags, p);
    hide Waiting, Almost;
    UsersKept(k, Waiting(k1, p, From(d)), p);
  }

  lemma SendrecTwice(a: seq<set<Flag>>, b: seq<set<Flag>>, c: seq<set<Flag>>, p: int)
    requires SendrecKept(a, b, p) && SendrecKept(b, c, -1)
    ensures SendrecKept(a, c, p)
  {
  }

  lemma TrapIs(k: Kernel, d: int)
    requires Is(k, k.procPtr) && Is(k, d) && Wired(k.flags, k.sendto) && CallersInTable(k)
    requires MiniSend(k, k.procPtr, d, true).1 == OK
    ensures var k1 := MiniSend(k, k.procPtr, d, true).0;
            && Is(k1, k.procPtr) && Wired(k1.flags, k1.sendto) && CallersInTable(k1)
            && SysCall(k, BOTH, From(d), true).0 == MiniRec(k1, k.procPtr, From(d))
  {
    SendKeepsWired(k, k.procPtr, d, true);
  }

  lemma UserMustWait(k: Kernel, d: int)
    requires Inv(k) && TrapAllowed(k, BOTH, From(d)) && k.prio[k.procPtr] == PPRI_USER && Is(k, d)
    requires MiniSend(k, k.procPtr, d, true).1 == OK
    ensures var p, k1 := k.procPtr, MiniSend(k, k.procPtr, d, true).0;
            && (d == k.slots.fs || d == k.slots.mm) && d != p
            && Real(k, p) && k.flags[p] == {} && Real(k1, p) && MayReceive(k1, p, From(d))
            && WayOf(k1, p, From(d)) == Wait
  {
    Running(k);
    var p, k1 := k.procPtr, MiniSend(k, k.procPtr, d, true).0;
    BlockFrame(k, p, {SENDING});
    UnblockFrame(k, d, RECEIVING);
    assert {} + {SENDING} == {SENDING};
    if WaitsFor(k.flags[d], k.getfrom[d], p) {
      var i := FirstAccepted(k1.callers[p], From(d));
      if i < |k1.callers[p]| {
        assert k1.callers[p][i] == d;
        CallerIsSending(k, p, i);
      }
    }
  }

  lemma UserPicked(k: Kernel, d: int)
    requires Inv(k) && TrapAllowed(k, BOTH, From(d)) && k.prio[k.procPtr] == PPRI_USER && Is(k, d)
    requires MiniSend(k, k.procPtr, d, true).1 == OK
    ensures Is(MiniSend(k, k.procPtr, d, true).0, k.procPtr)
    ensures Current(Waiting(MiniSend(k, k.procPtr, d, true).0, k.procPtr, From(d)))
  {
    Running(k);
    UserMustWait(k, d);
    var p := k.procPtr;
    if WaitsFor(k.flags[d], k.getfrom[d], p) {
      AnswerPicked(k, p, d);
    } else {
      UnreadyCurrent(k, p);
      hide Picked, Unready;
    }
  }

  /** The user's message made d ready, in a higher queue; then the user waits, and d is picked. */
  lemma AnswerPicked(k: Kernel, p: int, d: int)
    requires Current(k) && Is(k, p) && Is(k, d) && d != p && k.flags[p] == {} && k.prio[p] == PPRI_USER && p == k.procPtr
    requires k.ready[USER_Q] != [] && k.ready[USER_Q][0] == p && k.prio[d] == PPRI_SERVER
    ensures Current(Waiting(Unblock(k, d, RECEIVING), p, From(d)))
  {
    var k1 := Unblock(k, d, RECEIVING);
    assert k1.ready[USER_Q] == k.ready[USER_Q] && k1.flags[p] == {};
  }

  lemma SysCallKeeps(k: Kernel, f: Function, other: Source, addressOk: bool)
    requires Inv(k) && TrapAllowed(k, f, other)
    ensures CallersInTable(k) && Inv(SysCall(k, f, other, addressOk).0)
  {
    CallersAreInTable(k);
    if k.prio[k.procPtr] != PPRI_USER {
      SystemTrapKeeps(k, f, other, addressOk);
    } else if f == BOTH && other.From? && 0 <= other.slot < |k.prio| {
      Running(k);
      var d := other.slot;
      if MiniSend(k, k.procPtr, d, addressOk).1 == OK {
        UserTrapKeeps(k, d);
      } else {
        SendRefused(k, k.procPtr, d, addressOk);
      }
    }
  }

  lemma SendRefused(k: Kernel, caller: int, dest: int, addressOk: bool)
    requires Is(k, caller) && Is(k, dest) && Wired(k.flags, k.sendto)
    ensures MiniSend(k, caller, dest, addressOk).1 != OK ==> MiniSend(k, caller, dest, addressOk).0 == k
    ensures MiniSend(k, caller, dest, addressOk).1 == OK ==> addressOk
  {
  }

  // ---------------------------------------------------------------- do_fork

  /** do_fork copies the parent's slot, list head and all, over the child's. */
  lemma ForkExactly(k: Kernel, parent: int, child: int, pid: int)
    requires Core(k) && Is(k, parent) && Is(k, child)
    requires k.prio[parent] == PPRI_USER && k.prio[child] == PPRI_NONE && child > k.slots.mm
    ensures Core(Fork(k, parent, child, pid)) <==>
              SENDING !in k.flags[parent] && k.callers[parent] == [] && k.callers[child] == []
  {
    assert LocalAt(k, parent) && LocalAt(k, child);
    if SENDING !in k.flags[parent] && k.callers[parent] == [] && k.callers[child] == [] {
      ForkKeeps(k, parent, child, pid);
    } else if Core(Fork(k, parent, child, pid)) {
      ForkBreaks(k, parent, child, pid);
    }
  }

  /** A parent that is sending: the copy sends too, and is on no queue. */
  lemma ForkOfSender(k: Kernel, parent: int, child: int, pid: int)
    requires Lists(k) && Is(k, parent) && Is(k, child) && parent != child && k.flags[child] == {}
    requires SENDING in k.flags[parent]
    ensures !Lists(Fork(k, parent, child, pid))
  {
    hide ReadyOk, Acyclic, HeldOk, Roles;
    var f, d := Fork(k, parent, child, pid), k.sendto[parent];
    assert !Sending(k.flags, child) && Sending(k.flags, parent);
    assert child !in k.callers[d] && child !in k.callers[parent];
    assert Sending(f.flags, child) && f.sendto[child] == d && child !in f.callers[d];
  }

  /** Callers of the parent: the copy has them too. */
  lemma ForkWithCallers(k: Kernel, parent: int, child: int, pid: int)
    requires Lists(k) && Is(k, parent) && Is(k, child) && parent != child && k.flags[child] == {}
    requires k.callers[parent] != []
    ensures !Lists(Fork(k, parent, child, pid))
  {
    hide ReadyOk, Acyclic, HeldOk, Roles;
    var f, x := Fork(k, parent, child, pid), k.callers[parent][0];
    assert x in k.callers[parent] && Sending(k.flags, x) && x != child;
    assert x in f.callers[child] && f.sendto[x] == parent;
  }

  /** Callers left over from the last owner of the child's slot: they are lost. */
  lemma ForkOverCallers(k: Kernel, parent: int, child: int, pid: int)
    requires Lists(k) && Is(k, parent) && Is(k, child) && parent != child && k.flags[child] == {}
    requires k.callers[parent] == [] && k.callers[child] != []
    ensures !Lists(Fork(k, parent, child, pid))
  {
    hide ReadyOk, Acyclic, HeldOk, Roles;
    var f, x := Fork(k, parent, child, pid), k.callers[child][0];
    assert x in k.callers[child] && Sending(k.flags, x) && x != child;
    assert Sending(f.flags, x) && f.sendto[x] == child && x !in f.callers[child];
  }

  lemma ForkBreaks(k: Kernel, parent: int, child: int, pid: int)
    requires Core(k) && Is(k, parent) && Is(k, child) && parent != child && k.flags[child] == {}
    requires SENDING in k.flags[parent] || k.callers[parent] != [] || k.callers[child] != []
    ensures !Core(Fork(k, parent, child, pid))
  {
    hide Lists, Fork;
    if SENDING in k.flags[parent] {
      ForkOfSender(k, parent, child, pid);
    } else if k.callers[parent] != [] {
      ForkWithCallers(k, parent, child, pid);
    } else {
      ForkOverCallers(k, parent, child, pid);
    }
  }

  ghost predicate MayFork(k: Kernel, parent: int, child: int) {
    && Is(k, parent) && Is(k, child) && parent != child && child > k.slots.mm && child != k.slots.hardware
    && k.prio[parent] == PPRI_USER && k.prio[child] == PPRI_NONE && k.flags[child] == {}
    && SENDING !in k.flags[parent] && k.callers[parent] == [] && k.callers[child] == []
  }

  lemma ForkReady(k: Kernel, parent: int, child: int, pid: int)
    requires MayFork(k, parent, child) && ReadyOk(k.prio, k.flags, k.ready, k.slots.hardware)
    ensures var f := Fork(k, parent, child, pid); ReadyOk(f.prio, f.flags, f.ready, f.slots.hardware)
  {
    var f := Fork(k, parent, child, pid);
    assert NO_MAP in f.flags[child];
    assert forall x :: Runnable(f.prio, f.flags, k.slots.hardware, x) <==> Runnable(k.prio, k.flags, k.slots.hardware, x);
    NotQueued(k.prio, k.flags, k.ready, k.slots.hardware, child);
  }

  lemma ForkHeld(k: Kernel, parent: int, child: int, pid: int)
    requires MayFork(k, parent, child) && HeldOk(k) && Roles(k)
    ensures var f := Fork(k, parent, child, pid); Shape(f) && HeldOk(f) && Roles(f)
  {
  }

  lemma ForkEdges(k: Kernel, parent: int, child: int, pid: int)
    requires MayFork(k, parent, child) && CallersOk(k.flags, k.sendto, k.callers) && Acyclic(k.flags, k.sendto)
    ensures var f := Fork(k, parent, child, pid);
            CallersOk(f.flags, f.sendto, f.callers) && Acyclic(f.flags, f.sendto)
  {
    var f := Fork(k, parent, child, pid);
    assert SameSenders(k.flags, f.flags, {});
    AcyclicFewer(k.flags, k.sendto, f.flags, f.sendto);
    assert f.callers == k.callers;
    ForkCallers(k.flags, k.sendto, k.callers, f.flags, child, f.sendto);
  }

  lemma ForkLists(k: Kernel, parent: int, child: int, pid: int)
    requires Lists(k) && MayFork(k, parent, child)
    ensures Lists(Fork(k, parent, child, pid))
  {
    ForkReady(k, parent, child, pid);
    ForkHeld(k, parent, child, pid);
    ForkEdges(k, parent, child, pid);
    hide ReadyOk, Acyclic, CallersOk, HeldOk, Fork, Roles, MayFork;
  }

  lemma ForkCallers(flags: seq<set<Flag>>, sendto: seq<int>, callers: seq<seq<int>>, flags': seq<set<Flag>>, child: int, sendto': seq<int>)
    requires CallersOk(flags, sendto, callers) && SameSenders(flags, flags', {}) && 0 <= child < |flags|
    requires !Sending(flags, child) && |sendto'| == |sendto| && forall p :: 0 <= p < |sendto| && p != child ==> sendto'[p] == sendto[p]
    ensures CallersOk(flags', sendto', callers)
  {
  }

  lemma ForkKeeps(k: Kernel, parent: int, child: int, pid: int)
    requires Core(k) && Is(k, parent) && Is(k, child)
    requires k.prio[parent] == PPRI_USER && k.prio[child] == PPRI_NONE && child > k.slots.mm
    requires SENDING !in k.flags[parent] && k.callers[parent] == [] && k.callers[child] == []
    ensures Core(Fork(k, parent, child, pid))
    ensures UsersSendrec(k) ==> UsersSendrec(Fork(k, parent, child, pid))
    ensures Current(k) ==> Current(Fork(k, parent, child, pid))
  {
    ForkIsMade(k, parent, child);
    LocalForked(k, parent, child, pid);
    ForkLists(k, parent, child, pid);
    ForkMissesNone(k, parent, child, pid);
    ForkOnlyAt(k, parent, child, pid);
    ForkCounts(k, parent, child, pid);
    hide LocalOk, ReadyOk, CallersOk, Acyclic, HeldOk, NoMissedMessage, NoMissedInterrupt, NoMissedSignal, CountPending,
         LocalAt, OnlyAt, Roles, Lists, Fork;
    LocalsKeep(k, Fork(k, parent, child, pid), child);
    Together(Fork(k, parent, child, pid));
  }

  lemma ForkIsMade(k: Kernel, parent: int, child: int)
    requires Core(k) && Is(k, parent) && Is(k, child)
    requires k.prio[parent] == PPRI_USER && k.prio[child] == PPRI_NONE && child > k.slots.mm
    requires SENDING !in k.flags[parent] && k.callers[parent] == [] && k.callers[child] == []
    ensures MayFork(k, parent, child) && LocalAt(k, parent) && LocalAt(k, child)
  {
    NotHardware(k, parent);
    assert LocalAt(k, parent) && LocalAt(k, child);
  }

  /** What else the copy leaves as it was. */
  lemma ForkCounts(k: Kernel, parent: int, child: int, pid: int)
    requires MayFork(k, parent, child)
    ensures var f := Fork(k, parent, child, pid);
            && Shape(f) && f.sigProcs == k.sigProcs && CountPending(f.flags) == CountPending(k.flags)
            && (UsersSendrec(k) ==> UsersSendrec(f)) && (Current(k) ==> Current(f))
  {
    CountUpdate(k.flags, child, Fork(k, parent, child, pid).flags[child]);
  }

  lemma ForkOnlyAt(k: Kernel, parent: int, child: int, pid: int)
    requires Is(k, parent) && Is(k, child)
    ensures Shape(Fork(k, parent, child, pid)) && OnlyAt(k, Fork(k, parent, child, pid), child)
  {
  }

  lemma LocalForked(k: Kernel, parent: int, child: int, pid: int)
    requires Is(k, parent) && Is(k, child) && LocalAt(k, parent) && LocalAt(k, child) && parent != child
    requires k.prio[parent] == PPRI_USER && k.prio[child] == PPRI_NONE && Roles(k) && SENDING !in k.flags[parent]
    ensures Shape(Fork(k, parent, child, pid)) && LocalAt(Fork(k, parent, child, pid), child) && k.flags[child] == {}
    ensures child != k.slots.hardware && PENDING !in Fork(k, parent, child, pid).flags[child]
  {
  }

  lemma ForkMissesNone(k: Kernel, parent: int, child: int, pid: int)
    requires Core(k) && Is(k, parent) && Is(k, child) && parent != child && k.flags[child] == {} && child > k.slots.mm
    requires SENDING !in k.flags[parent] && k.callers[child] == [] && Lists(Fork(k, parent, child, pid))
    ensures var f := Fork(k, parent, child, pid); NoMissedMessage(f) && NoMissedInterrupt(f) && NoMissedSignal(f)
  {
  }

  // ---------------------------------------------------------------- the operations

  datatype Op =
    | Trap(f: Function, other: Source, addressOk: bool)
    | Int(task: int, competing: bool)
    | Flush                                  // unhold
    | Quantum                                // sched, from the clock task
    | Signal(p: int, sig: int)               // cause_sig
    | SignalDone(p: int)                     // do_endsig
    | Died(p: int)                           // do_xit
    | Mapped(p: int)                         // do_newmap
    | Forked(parent: int, child: int, pid: int)
    | Grouping(pid: int, group: int)         // do_setGroup

  /** What the source asserts, or relies on, when the operation is invoked. The system task's own
      requests come while a task is running. */
  ghost predicate Proper(k: Kernel, op: Op) {
    Shape(k) &&
    match op
    case Trap(f, other, _) => TrapAllowed(k, f, other)
    case Int(t, _) => IsTask(k, t)
    case Flush => true
    case Quantum => true
    case Signal(p, _) => Is(k, p) && k.prio[p] == PPRI_USER
    case SignalDone(p) =>
      Is(k, p) && (k.prio[p] == PPRI_USER || k.prio[p] == PPRI_NONE) && k.ready[TASK_Q] != []
    case Died(p) => Is(k, p) && k.prio[p] == PPRI_USER
    case Mapped(p) => Is(k, p) && k.ready[TASK_Q] != []
    case Forked(parent, child, _) =>
      && Is(k, parent) && Is(k, child) && k.prio[parent] == PPRI_USER && k.prio[child] == PPRI_NONE && child > k.slots.mm
      && SENDING !in k.flags[parent] && k.callers[parent] == [] && k.callers[child] == []
    case Grouping(_, _) => true
  }

  /** And do_endsig does not miscount. KernelHistory shows that this is so as long as MM reports the end
      only of signals it was told of. */
  ghost predicate Allowed(k: Kernel, op: Op) {
    Proper(k, op) && (op.SignalDone? ==> k.pendcount[op.p] == 0 || MMOwes(k, op.p))
  }

  lemma InvReads(k: Kernel)
    requires Inv(k)
    ensures Wired(k.flags, k.sendto) && CallersInTable(k) && Grouped(k.ready[USER_Q], k.group)
    ensures forall i :: 0 <= i < |k.held| ==> 0 <= k.held[i] < |k.prio|
  {
    CallersAreInTable(k);
    UserQueueGrouped(k);
    forall i | 0 <= i < |k.held| ensures 0 <= k.held[i] < |k.prio| { assert k.held[i] in k.held; }
  }

  ghost function Do(k: Kernel, op: Op): Kernel
    requires Inv(k) && Allowed(k, op)
  {
    InvReads(k);
    match op
    case Trap(f, other, addressOk) => SysCall(k, f, other, addressOk).0
    case Int(t, competing) => Interrupt(k, t, competing)
    case Flush => Unhold(k)
    case Quantum => Rescheduled(k)
    case Signal(p, sig) => CauseSig(k, p, sig)
    case SignalDone(p) => EndSig(k, p).0
    case Died(p) => Exit(k, p)
    case Mapped(p) => NewMap(k, p)
    case Forked(parent, child, pid) => Fork(k, parent, child, pid)
    case Grouping(pid, group) => SetGroup(k, pid, group).0
  }

  lemma {:induction false} UnholdUsers(k: Kernel)
    requires Core(k) && UsersSendrec(k)
    ensures forall i :: 0 <= i < |k.held| ==> 0 <= k.held[i] < |k.prio|
    ensures Shape(Unhold(k)) && UsersSendrec(Unhold(k))
    decreases |k.held|
  {
    forall i | 0 <= i < |k.held| ensures 0 <= k.held[i] < |k.prio| { assert k.held[i] in k.held; }
    if k.held != [] {
      HeldFewer(k);
      ReleaseIs(k);
      IntUsers(k.(held := k.held[1..], intHeld := k.intHeld[k.held[0] := false]), k.held[0], false);
      UnholdUsers(ReleaseHeld(k));
    }
  }

  lemma IntUsers(k: Kernel, t: int, competing: bool)
    requires IsTask(k, t) && UsersSendrec(k)
    ensures Shape(Interrupt(k, t, competing)) && UsersSendrec(Interrupt(k, t, competing))
  {
  }

  lemma NotHardware(k: Kernel, p: int)
    requires Core(k) && Is(k, p) && k.prio[p] == PPRI_USER
    ensures p != k.slots.hardware
  {
  }

  lemma HeldBackUsers(k: Kernel, p: int, sig: int)
    requires Is(k, p) && UsersSendrec(k)
    ensures Shape(HeldBack(k, p, sig)) && UsersSendrec(HeldBack(k, p, sig))
  {
  }

  lemma ToldUsers(h: Kernel)
    requires Almost(h) && MMListens(h) && UsersSendrec(h)
    ensures Shape(Inform(h)) && UsersSendrec(Inform(h))
  {
    InformUsers(h);
    InformKeeps(h);
    hide Almost, Inform, MMListens, UsersSendrec;
    UsersKept(h, Inform(h), -1);
  }

  lemma SignalUsers(k: Kernel, p: int, sig: int)
    requires Core(k) && UsersSendrec(k) && Is(k, p) && k.prio[p] == PPRI_USER
    ensures Shape(CauseSig(k, p, sig)) && UsersSendrec(CauseSig(k, p, sig))
  {
    NotHardware(k, p);
    CauseIs(k, p, sig);
    if sig !in k.pending[p] && PENDING !in k.flags[p] {
      HeldBackKeeps(k, p, sig);
      HeldBackUsers(k, p, sig);
      hide *;
      if MMListens(HeldBack(k, p, sig)) { ToldUsers(HeldBack(k, p, sig)); }
    }
  }

  lemma FreedUsers(k: Kernel, p: int, f: Flag)
    requires Is(k, p) && UsersSendrec(k) && f != RECEIVING
    ensures UsersSendrec(Unblock(k, p, f))
  {
  }

  lemma FreedCurrent(k: Kernel, p: int, f: Flag)
    requires Is(k, p) && Current(k) && k.ready[TASK_Q] != []
    ensures Current(Unblock(k, p, f))
  {
  }

  lemma EndSigInv(k: Kernel, p: int)
    requires Inv(k) && Allowed(k, SignalDone(p))
    ensures Inv(EndSig(k, p).0)
  {
    EndSigKeeps(k, p);
    if k.prio[p] != PPRI_NONE && k.pendcount[p] > 0 {
      var k1 := OneDone(k, p);
      assert UsersSendrec(k1) && Current(k1);
      FreedUsers(k1, p, SIG_PENDING);
      FreedCurrent(k1, p, SIG_PENDING);
    }
  }

  lemma NewMapInv(k: Kernel, p: int)
    requires Inv(k) && Allowed(k, Mapped(p))
    ensures Inv(NewMap(k, p))
  {
    NewMapKeeps(k, p);
    FreedUsers(k, p, NO_MAP);
    FreedCurrent(k, p, NO_MAP);
  }

  lemma ExitInv(k: Kernel, p: int)
    requires Inv(k) && Allowed(k, Died(p))
    ensures Inv(Exit(k, p))
  {
    ExitKeeps(k, p);
    ExitFrame(k, p);
  }

  lemma OpKeeps(k: Kernel, op: Op)
    requires Inv(k) && Allowed(k, op)
    ensures Inv(Do(k, op))
  {
    InvReads(k);
    hide SysCall, Interrupt, Unhold, Rescheduled, CauseSig, EndSig, Exit, NewMap, Fork, SetGroup, UsersSendrec, Current, Almost,
         NoMissedSignal, TrapAllowed, IsTask, Wired, CallersInTable, Grouped;
    match op
    case Trap(f, other, addressOk) => SysCallKeeps(k, f, other, addressOk);
    case Int(t, competing) => InterruptKeeps(k, t, competing); IntUsers(k, t, competing);
    case Flush => UnholdKeeps(k); UnholdUsers(k);
    case Quantum => RescheduledKeeps(k);
    case Signal(p, sig) => CauseSigKeeps(k, p, sig); SignalUsers(k, p, sig);
    case SignalDone(p) => EndSigInv(k, p);
    case Died(p) => ExitInv(k, p);
    case Mapped(p) => NewMapInv(k, p);
    case Forked(parent, child, pid) => ForkKeeps(k, parent, child, pid);
    case Grouping(pid, group) => SetGroupKeeps(k, pid, group);
  }

  // ---------------------------------------------------------------- boot

  /** main(): every slot cleared, no list in use. */
  ghost predicate Cleared(k: Kernel) {
    && Shape(k) && Roles(k) && k.ready == [[], [], []] && k.held == [] && k.sigProcs == 0
    && forall p :: 0 <= p < |k.prio| ==>
         && k.flags[p] == {} && k.pending[p] == {} && k.pendcount[p] == 0 && k.group[p] == 0
         && !k.intBlocked[p] && !k.intHeld[p] && k.callers[p] == []
  }

  /** main()'s loop: make every process but IDLE and HARDWARE ready, in slot order. */
  ghost function ReadyAll(k: Kernel, n: nat): (r: Kernel)
    requires Cleared(k) && n <= |k.prio|
    ensures r == k.(ready := r.ready, procPtr := r.procPtr) && |r.ready| == NQ
  {
    if n == 0 then k
    else if Runnable(k.prio, k.flags, k.slots.hardware, n - 1) then Ready(ReadyAll(k, n - 1), n - 1)
    else ReadyAll(k, n - 1)
  }

  lemma {:induction false} ReadyAllOk(k: Kernel, n: nat)
    requires Cleared(k) && n <= |k.prio|
    ensures var r := ReadyAll(k, n).ready;
            && |r| == NQ && (forall q :: 0 <= q < NQ ==> Distinct(r[q]))
            && (forall q, p :: 0 <= q < NQ ==>
                  (p in r[q] <==> p < n && Runnable(k.prio, k.flags, k.slots.hardware, p) && QueueOf(k.prio[p]) == q))
            && (forall q, p :: 0 <= q < NQ && p in r[q] ==> p < n)
  {
    if n > 0 { ReadyAllOk(k, n - 1); }
  }

  lemma BootInv(k: Kernel)
    requires Cleared(k)
    ensures Inv(PickProc(ReadyAll(k, |k.prio|)))
  {
    BootLists(k);
    CountZero(k.flags);
    BootRest(k);
    hide *;
    Together(PickProc(ReadyAll(k, |k.prio|)));
    InvParts(PickProc(ReadyAll(k, |k.prio|)));
  }

  lemma InvParts(r: Kernel)
    requires Almost(r) && NoMissedSignal(r) && UsersSendrec(r) && Current(r)
    ensures Inv(r)
  {
  }

  lemma BootRest(k: Kernel)
    requires Cleared(k)
    ensures var r := PickProc(ReadyAll(k, |k.prio|));
            && Shape(r) && Locals(r) && Wired(r.flags, r.sendto) && NoMissedMessage(r) && NoMissedInterrupt(r)
            && NoMissedSignal(r) && UsersSendrec(r) && Current(r) && r.sigProcs == CountPending(r.flags)
  {
    hide ReadyOk, CallersOk, Acyclic, HeldOk, ReadyAll;
    CountZero(k.flags);
    var r := PickProc(ReadyAll(k, |k.prio|));
    assert forall p :: 0 <= p < |k.prio| ==> LocalAt(r, p);
  }

  lemma BootLists(k: Kernel)
    requires Cleared(k)
    ensures Lists(PickProc(ReadyAll(k, |k.prio|)))
  {
    BootReady(k);
    var r := PickProc(ReadyAll(k, |k.prio|));
    NoEdges(r.flags, r.sendto, r.callers);
    hide ReadyAll, ReadyOk, CallersOk, Acyclic;
  }

  lemma BootReady(k: Kernel)
    requires Cleared(k)
    ensures var r := PickProc(ReadyAll(k, |k.prio|)); ReadyOk(r.prio, r.flags, r.ready, r.slots.hardware)
  {
    ReadyAllOk(k, |k.prio|);
    hide ReadyAll;
  }

  lemma NoEdges(flags: seq<set<Flag>>, sendto: seq<int>, callers: seq<seq<int>>)
    requires |flags| == |sendto| == |callers|
    requires forall p :: 0 <= p < |flags| ==> flags[p] == {} && callers[p] == []
    ensures CallersOk(flags, sendto, callers) && Acyclic(flags, sendto)
  {
  }
}
