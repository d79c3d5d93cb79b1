/** Every operation keeps the invariant; the conditions are what the source asserts of callers. */
module KernelSteps {
  import opened Chains
  import opened KernelSpec
  import opened KernelInvariant
  import opened SendGraph
  import opened UserQueue

  // ---------------------------------------------------------------- what the primitives touch

  /** k2 is k with other ready queues, running process and flags of p. */
  ghost predicate OnlyFlags(k: Kernel, k2: Kernel, p: int, f: set<Flag>)
    requires Is(k, p)
  {
    k2 == k.(flags := k.flags[p := f], ready := k2.ready, procPtr := k2.procPtr, billPtr := k2.billPtr)
  }

  lemma BlockFrame(k: Kernel, p: int, f: set<Flag>)
    requires Is(k, p)
    ensures OnlyFlags(k, Block(k, p, f), p, k.flags[p] + f)
  {
  }

  lemma UnblockFrame(k: Kernel, p: int, f: Flag)
    requires Is(k, p)
    ensures OnlyFlags(k, Unblock(k, p, f), p, k.flags[p] - {f})
  {
  }

  ghost predicate Locals(k: Kernel)
    requires Shape(k)
  {
    forall p :: 0 <= p < |k.prio| ==> LocalAt(k, p)
  }

  /** Everybody but p has the fields it had. */
  ghost predicate OnlyAt(k: Kernel, k2: Kernel, p: int)
    requires Shape(k) && Shape(k2)
  {
    && |k2.prio| == |k.prio| && k2.slots == k.slots
    && forall i :: 0 <= i < |k.prio| && i != p ==>
         && k2.prio[i] == k.prio[i] && k2.flags[i] == k.flags[i] && k2.getfrom[i] == k.getfrom[i]
         && k2.sendto[i] == k.sendto[i] && k2.pending[i] == k.pending[i] && k2.pendcount[i] == k.pendcount[i]
         && k2.group[i] == k.group[i]
  }

  lemma LocalsKeep(k: Kernel, k2: Kernel, p: int)
    requires Shape(k) && Shape(k2) && Locals(k) && OnlyAt(k, k2, p) && 0 <= p < |k.prio| && LocalAt(k2, p)
    ensures Locals(k2)
  {
    hide LocalOk;
    forall i | 0 <= i < |k2.prio| ensures LocalAt(k2, i) {
      if i != p { assert LocalAt(k, i); }
    }
  }

  /** The parts of the invariant, put together. */
  lemma Together(k: Kernel)
    requires Lists(k) && Locals(k) && NoMissedMessage(k) && NoMissedInterrupt(k) && k.sigProcs == CountPending(k.flags)
    ensures Almost(k)
  {
  }

  /** Clearing a flag that no signal depends on, or setting SENDING or RECEIVING. */
  lemma LocalClear(k: Kernel, p: int, f: Flag)
    requires Is(k, p) && LocalAt(k, p) && f != PENDING && f != SIG_PENDING
    ensures LocalOk(k.prio[p], k.flags[p] - {f}, k.getfrom[p], k.sendto[p], k.pending[p], k.pendcount[p], k.group[p],
                    p == k.slots.hardware)
  {
  }

  lemma LocalSend(k: Kernel, p: int, dest: int)
    requires Real(k, p) && LocalAt(k, p) && k.flags[p] == {}
    ensures LocalOk(k.prio[p], {SENDING}, k.getfrom[p], dest, k.pending[p], k.pendcount[p], k.group[p], false)
  {
  }

  lemma LocalWait(k: Kernel, p: int, src: Source)
    requires Real(k, p) && LocalAt(k, p) && MayReceive(k, p, src)
    ensures LocalOk(k.prio[p], k.flags[p] + {RECEIVING}, src, k.sendto[p], k.pending[p], k.pendcount[p], k.group[p], false)
  {
  }

  lemma LocalTold(k: Kernel, p: int)
    requires Is(k, p) && LocalAt(k, p) && PENDING in k.flags[p]
    ensures LocalOk(k.prio[p], k.flags[p] - {PENDING}, k.getfrom[p], k.sendto[p], {}, k.pendcount[p], k.group[p],
                    p == k.slots.hardware)
  {
  }

  /** The general step: one process's flags change, with SENDING and PENDING as they were, and
      without a new RECEIVING. */
  lemma FlagsLists(k: Kernel, k2: Kernel, p: int, f: set<Flag>)
    requires Lists(k) && Is(k, p) && OnlyFlags(k, k2, p, f)
    requires ReadyOk(k2.prio, k2.flags, k2.ready, k2.slots.hardware)
    requires SENDING in f <==> SENDING in k.flags[p]
    ensures Lists(k2)
  {
    assert SameSenders(k.flags, k2.flags, {});
    CallersSame(k.flags, k.sendto, k.callers, k2.flags);
    AcyclicFewer(k.flags, k.sendto, k2.flags, k2.sendto);
  }

  lemma FlagsMissNone(k: Kernel, k2: Kernel, p: int, f: set<Flag>)
    requires Almost(k) && Is(k, p) && OnlyFlags(k, k2, p, f) && Lists(k2)
    requires (SENDING in f <==> SENDING in k.flags[p]) && (PENDING in f <==> PENDING in k.flags[p])
    requires RECEIVING in f ==> RECEIVING in k.flags[p]
    ensures NoMissedMessage(k2) && NoMissedInterrupt(k2) && (NoMissedSignal(k) ==> NoMissedSignal(k2))
  {
  }

  lemma FlagsKeep(k: Kernel, k2: Kernel, p: int, f: set<Flag>)
    requires Almost(k) && Is(k, p) && OnlyFlags(k, k2, p, f)
    requires ReadyOk(k2.prio, k2.flags, k2.ready, k2.slots.hardware)
    requires (SENDING in f <==> SENDING in k.flags[p]) && (PENDING in f <==> PENDING in k.flags[p])
    requires RECEIVING in f ==> RECEIVING in k.flags[p]
    requires LocalAt(k2, p)
    ensures Almost(k2) && (NoMissedSignal(k) ==> NoMissedSignal(k2))
  {
    hide LocalOk, ReadyOk, CallersOk, Acyclic, HeldOk, Roles, NoMissedMessage, NoMissedInterrupt, WaitsFor, CountPending, NoMissedSignal;
    FlagsLists(k, k2, p, f);
    FlagsMissNone(k, k2, p, f);
    CountUpdate(k.flags, p, f);
    LocalsKeep(k, k2, p);
    Together(k2);
  }

  // ---------------------------------------------------------------- mini_send

  /** A process that may be blocked and unblocked at all: not HARDWARE, IDLE or an empty slot. */
  ghost predicate Real(k: Kernel, p: int) {
    Is(k, p) && p != k.slots.hardware && Schedulable(k.prio[p])
  }

  lemma FlaggedIsReal(k: Kernel, p: int)
    requires Almost(k) && Is(k, p) && k.flags[p] != {}
    ensures Real(k, p)
  {
    assert LocalAt(k, p);
  }

  /** Unblocking by clearing RECEIVING, as when a message is delivered. */
  lemma DeliverKeeps(k: Kernel, p: int)
    requires Almost(k) && Is(k, p) && RECEIVING in k.flags[p]
    ensures var k2 := Unblock(k, p, RECEIVING); Almost(k2) && (NoMissedSignal(k) ==> NoMissedSignal(k2))
  {
    FlaggedIsReal(k, p);
    UnblockFrame(k, p, RECEIVING);
    UnblockReady(k, p, RECEIVING);
    assert LocalAt(k, p);
    FlagsKeep(k, Unblock(k, p, RECEIVING), p, k.flags[p] - {RECEIVING});
  }

  /** The state of mini_send's second branch: the caller is blocked and queued. */
  ghost function Queued(k: Kernel, caller: int, dest: int): Kernel
    requires Is(k, caller) && Is(k, dest)
  {
    Enqueue(Block(k, caller, {SENDING}), caller, dest)
  }

  lemma QueuedLists(k: Kernel, caller: int, dest: int)
    requires Lists(k) && Real(k, caller) && Is(k, dest) && k.flags[caller] == {} && dest != caller
    requires !Reaches(k.flags, k.sendto, dest, caller)
    ensures Lists(Queued(k, caller, dest))
  {
    var k2 := Queued(k, caller, dest);
    BlockFrame(k, caller, {SENDING});
    BlockReady(k, caller, {SENDING});
    CallersEnqueue(k.flags, k.sendto, k.callers, k2.flags, caller, dest);
    EdgeClosesCycle(k.flags, k.sendto, k2.flags, k2.sendto, caller, dest);
  }

  lemma QueuedMissesNone(k: Kernel, caller: int, dest: int)
    requires Almost(k) && Real(k, caller) && Is(k, dest) && k.flags[caller] == {} && dest != caller
    requires !WaitsFor(k.flags[dest], k.getfrom[dest], caller) && Lists(Queued(k, caller, dest))
    ensures NoMissedMessage(Queued(k, caller, dest)) && NoMissedInterrupt(Queued(k, caller, dest))
    ensures NoMissedSignal(k) ==> NoMissedSignal(Queued(k, caller, dest))
  {
    var k2 := Queued(k, caller, dest);
    BlockFrame(k, caller, {SENDING});
    assert forall i :: 0 <= i < |k.prio| && i != caller ==> k2.flags[i] == k.flags[i] && k2.sendto[i] == k.sendto[i];
  }

  lemma QueuedKeeps(k: Kernel, caller: int, dest: int)
    requires Almost(k) && Real(k, caller) && Is(k, dest) && k.flags[caller] == {} && dest != caller
    requires !Reaches(k.flags, k.sendto, dest, caller) && !WaitsFor(k.flags[dest], k.getfrom[dest], caller)
    ensures var k2 := Queued(k, caller, dest); Almost(k2) && (NoMissedSignal(k) ==> NoMissedSignal(k2))
  {
    hide LocalOk, ReadyOk, CallersOk, Acyclic, HeldOk, Roles, NoMissedMessage, NoMissedInterrupt, WaitsFor, CountPending, NoMissedSignal, Reaches;
    var k2 := Queued(k, caller, dest);
    BlockFrame(k, caller, {SENDING});
    QueuedLists(k, caller, dest);
    QueuedMissesNone(k, caller, dest);
    LocalSend(k, caller, dest);
    CountUpdate(k.flags, caller, {SENDING});
    assert k.flags[caller] + {SENDING} == {SENDING};
    hide Block;
    LocalsKeep(k, k2, caller);
    Together(k2);
  }

  /** The walk of mini_send looks one edge past dest; dest == caller escapes it. */
  lemma LockedIsReached(k: Kernel, caller: int, dest: int)
    requires Is(k, caller) && Is(k, dest) && Wired(k.flags, k.sendto) && SENDING !in k.flags[caller]
    ensures Locked(k, caller, dest) <==> dest != caller && Reaches(k.flags, k.sendto, dest, caller)
  {
    assert Walk(k.flags, k.sendto, dest, 0) == At(dest);
    if Locked(k, caller, dest) {
      var n: nat :| Walk(k.flags, k.sendto, k.sendto[dest], n) == At(caller);
      assert Walk(k.flags, k.sendto, dest, n + 1) == At(caller);
    }
    if dest != caller && Reaches(k.flags, k.sendto, dest, caller) {
      var n: nat :| Walk(k.flags, k.sendto, dest, n) == At(caller);
      assert n > 0 && Walk(k.flags, k.sendto, k.sendto[dest], n - 1) == At(caller);
    }
  }

  /** ELOCKED is returned exactly when the call is legal and its edge would close a cycle through
      another process. */
  lemma LockedExactly(k: Kernel, caller: int, dest: int)
    requires Almost(k) && Is(k, caller) && Is(k, dest) && k.flags[caller] == {}
    ensures MiniSend(k, caller, dest, true).1 == ELOCKED <==>
            && (k.prio[caller] == PPRI_USER ==> dest == k.slots.fs || dest == k.slots.mm)
            && k.prio[dest] != PPRI_NONE && dest != caller
            && Reaches(k.flags, k.sendto, dest, caller)
  {
    LockedIsReached(k, caller, dest);
  }

  lemma SendKeeps(k: Kernel, caller: int, dest: int, addressOk: bool)
    requires Almost(k) && Real(k, caller) && Is(k, dest) && k.flags[caller] == {} && dest != caller
    ensures var k2 := MiniSend(k, caller, dest, addressOk).0; Almost(k2) && (NoMissedSignal(k) ==> NoMissedSignal(k2))
  {
    LockedIsReached(k, caller, dest);
    if WaitsFor(k.flags[dest], k.getfrom[dest], caller) {
      DeliverKeeps(k, dest);
    } else if !Reaches(k.flags, k.sendto, dest, caller) {
      QueuedKeeps(k, caller, dest);
    }
  }

  /** Nothing in mini_send stops a task or server from sending to itself, and then the graph has a
      cycle; every other call keeps it acyclic. */
  lemma SelfSendOnly(k: Kernel, caller: int, dest: int)
    requires Core(k) && Real(k, caller) && Is(k, dest) && k.flags[caller] == {}
    ensures var (k2, r) := MiniSend(k, caller, dest, true);
            && Wired(k2.flags, k2.sendto)
            && (Acyclic(k2.flags, k2.sendto) <==> !(dest == caller && k.prio[caller] != PPRI_USER))
  {
    SendKeepsWiredOnly(k, caller, dest);
    if dest != caller {
      SendKeeps(k, caller, dest, true);
    } else if k.prio[caller] != PPRI_USER {
      LockedIsReached(k, caller, dest);
      var k2 := MiniSend(k, caller, dest, true).0;
      BlockFrame(k, caller, {SENDING});
      assert k2 == Queued(k, caller, dest);
      assert Walk(k2.flags, k2.sendto, caller, 0) == At(caller);
      assert Walk(k2.flags, k2.sendto, caller, 1) == At(caller);
    } else {
      assert MiniSend(k, caller, dest, true) == (k, E_BAD_DEST);
    }
  }

  lemma SendKeepsWiredOnly(k: Kernel, caller: int, dest: int)
    requires Is(k, caller) && Is(k, dest) && Wired(k.flags, k.sendto)
    ensures var k2 := MiniSend(k, caller, dest, true).0; Wired(k2.flags, k2.sendto)
  {
  }

  // ---------------------------------------------------------------- inform

  lemma PendingIsUser(k: Kernel, p: int)
    requires Almost(k) && Is(k, p) && PENDING in k.flags[p]
    ensures k.prio[p] == PPRI_USER && p > k.slots.mm && SIG_PENDING in k.flags[p]
  {
    assert LocalAt(k, p);
  }

  /** While MM listens, telling it cannot fail: the "can't inform MM" panic is out of reach. */
  lemma InformDelivers(k: Kernel)
    requires Almost(k) && MMListens(k)
    ensures MiniSend(k, k.slots.hardware, k.slots.mm, true) == (Unblock(k, k.slots.mm, RECEIVING), OK)
  {
    assert LocalAt(k, k.slots.mm);
  }

  lemma NonePending(k: Kernel)
    requires Almost(k) && FirstPending(k.flags, k.slots.mm) == |k.flags|
    ensures NoMissedSignal(k) && k.sigProcs == 0
  {
    CountZero(k.flags);
    forall p | 0 <= p < |k.flags| ensures PENDING !in k.flags[p] {
      if PENDING in k.flags[p] { PendingIsUser(k, p); }
    }
  }

  /** mini_send does not look at sig_procs. */
  lemma SendCountsNothing(k: Kernel, n: int, caller: int, dest: int)
    requires Is(k, caller) && Is(k, dest) && Wired(k.flags, k.sendto)
    ensures MiniSend(k.(sigProcs := n), caller, dest, true).0 == MiniSend(k, caller, dest, true).0.(sigProcs := n)
  {
    BlockingCountsNothing(k, n, caller, dest);
    hide Block, Unblock, Reaches;
  }

  lemma BlockingCountsNothing(k: Kernel, n: int, caller: int, dest: int)
    requires Is(k, caller) && Is(k, dest)
    ensures Block(k.(sigProcs := n), caller, {SENDING}) == Block(k, caller, {SENDING}).(sigProcs := n)
    ensures Unblock(k.(sigProcs := n), dest, RECEIVING) == Unblock(k, dest, RECEIVING).(sigProcs := n)
  {
  }

  /** The first process with a signal is handed over; MM is busy again, and is picked afresh. */
  lemma InformIs(k: Kernel)
    requires Almost(k) && MMListens(k)
    ensures var i := FirstPending(k.flags, k.slots.mm);
            if i == |k.flags| then Inform(k) == k
            else Is(k, i) && PENDING in k.flags[i] && PENDING in Unblock(k, k.slots.mm, RECEIVING).flags[i]
                 && Inform(k) == Told(Unblock(k, k.slots.mm, RECEIVING), i)
  {
    hide ReadyOk, CallersOk, Acyclic, HeldOk, Roles, LocalOk, NoMissedMessage, NoMissedInterrupt, CountPending, FirstPending;
    var i, mm := FirstPending(k.flags, k.slots.mm), k.slots.mm;
    if i < |k.flags| {
      PendingIsUser(k, i);
      InformDelivers(k);
      UnblockFrame(k, mm, RECEIVING);
      SendCountsNothing(k, k.sigProcs - 1, k.slots.hardware, mm);
      hide MiniSend, Unblock;
    }
  }

  lemma InformKeeps(k: Kernel)
    requires Almost(k) && MMListens(k)
    ensures Core(Inform(k)) && (Current(k) || k.sigProcs > 0 ==> Current(Inform(k)))
  {
    InformIs(k);
    NoteMM(k);
    hide Almost, Inform, Told, LocalAt;
    if FirstPending(k.flags, k.slots.mm) == |k.flags| {
      NonePending(k);
    } else {
      DeliverKeeps(k, k.slots.mm);
      ToldKeeps(Unblock(k, k.slots.mm, RECEIVING), FirstPending(k.flags, k.slots.mm));
    }
  }

  lemma NoteMM(k: Kernel)
    requires Almost(k) && MMListens(k)
    ensures Is(k, k.slots.mm) && !MMListens(Unblock(k, k.slots.mm, RECEIVING))
  {
  }

  /** Process i's signals are in MM's hands; SIG_PENDING still holds it back. */
  ghost function Told(k: Kernel, i: int): Kernel
    requires Is(k, i)
  {
    PickProc(k.(sigProcs := k.sigProcs - 1, pending := k.pending[i := {}], flags := k.flags[i := k.flags[i] - {PENDING}]))
  }

  lemma ToldLists(k: Kernel, i: int)
    requires Almost(k) && Is(k, i) && PENDING in k.flags[i]
    ensures Lists(Told(k, i))
  {
    var k2 := Told(k, i);
    PendingIsUser(k, i);
    assert SIG_PENDING in k2.flags[i];
    assert forall x :: Runnable(k.prio, k2.flags, k.slots.hardware, x) <==> Runnable(k.prio, k.flags, k.slots.hardware, x);
    assert SameSenders(k.flags, k2.flags, {});
    CallersSame(k.flags, k.sendto, k.callers, k2.flags);
    AcyclicFewer(k.flags, k.sendto, k2.flags, k2.sendto);
  }

  lemma ToldKeeps(k: Kernel, i: int)
    requires Almost(k) && Is(k, i) && PENDING in k.flags[i] && !MMListens(k)
    ensures Core(Told(k, i)) && Current(Told(k, i))
  {
    hide LocalOk, ReadyOk, CallersOk, Acyclic, HeldOk, Roles, NoMissedMessage, NoMissedInterrupt, WaitsFor, CountPending;
    var k2 := Told(k, i);
    ToldLists(k, i);
    ToldMissesNone(k, i);
    LocalTold(k, i);
    CountUpdate(k.flags, i, k.flags[i] - {PENDING});
    LocalsKeep(k, k2, i);
    Together(k2);
  }

  lemma ToldMissesNone(k: Kernel, i: int)
    requires Almost(k) && Is(k, i) && PENDING in k.flags[i] && !MMListens(k)
    ensures Wired(Told(k, i).flags, Told(k, i).sendto)
    ensures NoMissedMessage(Told(k, i)) && NoMissedInterrupt(Told(k, i)) && !MMListens(Told(k, i))
  {
  }

  // ---------------------------------------------------------------- mini_rec

  lemma ReceiveLists(k: Kernel, p: int, i: nat)
    requires Lists(k) && Is(k, p) && i < |k.callers[p]| && Real(k, k.callers[p][i])
    ensures Lists(Receive(k, p, i))
  {
    var s, k2 := k.callers[p][i], Receive(k, p, i);
    assert s in k.callers[p];
    assert Sending(k.flags, s);
    var k1 := k.(callers := k.callers[p := Dropped(k.callers[p], i)]);
    UnblockFrame(k1, s, SENDING);
    UnblockReady(k1, s, SENDING);
    CallersDequeue(k.flags, k.sendto, k.callers, k2.flags, p, i);
    AcyclicFewer(k.flags, k.sendto, k2.flags, k2.sendto);
  }

  /** The sender released may now be waiting, but only for p, which is not sending to it. */
  lemma ReceiveMissesNone(k: Kernel, p: int, i: nat)
    requires Core(k) && Real(k, p) && SENDING !in k.flags[p] && i < |k.callers[p]|
    requires Is(k, k.callers[p][i]) && SENDING in k.flags[k.callers[p][i]] && k.sendto[k.callers[p][i]] == p
    requires Lists(Receive(k, p, i))
    ensures var k2 := Receive(k, p, i); NoMissedMessage(k2) && NoMissedInterrupt(k2) && NoMissedSignal(k2)
  {
    var s, k2 := k.callers[p][i], Receive(k, p, i);
    UnblockFrame(k.(callers := k.callers[p := Dropped(k.callers[p], i)]), s, SENDING);
    assert LocalAt(k, s);
    assert RECEIVING in k.flags[s] ==> k.getfrom[s] == From(p);
    forall q | 0 <= q < |k2.flags| && SENDING in k2.flags[q]
      ensures !WaitsFor(k2.flags[k2.sendto[q]], k2.getfrom[k2.sendto[q]], q)
    {
      assert SENDING in k.flags[q] && q != p;
    }
  }

  lemma CallerIsSending(k: Kernel, p: int, i: nat)
    requires Almost(k) && Is(k, p) && i < |k.callers[p]|
    ensures var s := k.callers[p][i]; Real(k, s) && SENDING in k.flags[s] && k.sendto[s] == p && LocalAt(k, s)
  {
    assert k.callers[p][i] in k.callers[p];
    assert Sending(k.flags, k.callers[p][i]);
    FlaggedIsReal(k, k.callers[p][i]);
  }

  lemma ReceiveKeeps(k: Kernel, p: int, i: nat)
    requires Core(k) && Real(k, p) && SENDING !in k.flags[p] && i < |k.callers[p]|
    ensures 0 <= k.callers[p][i] < |k.prio| && Core(Receive(k, p, i))
  {
    hide LocalOk, ReadyOk, CallersOk, Acyclic, HeldOk, Roles, NoMissedMessage, NoMissedInterrupt, WaitsFor, CountPending, NoMissedSignal;
    CallerIsSending(k, p, i);
    var s, k2 := k.callers[p][i], Receive(k, p, i);
    UnblockFrame(k.(callers := k.callers[p := Dropped(k.callers[p], i)]), s, SENDING);
    ReceiveLists(k, p, i);
    ReceiveMissesNone(k, p, i);
    LocalClear(k, s, SENDING);
    CountUpdate(k.flags, s, k.flags[s] - {SENDING});
    hide Unblock;
    LocalsKeep(k, k2, s);
    Together(k2);
  }

  /** mini_rec's last branch: nothing acceptable is at hand, and the caller blocks. */
  ghost function Waiting(k: Kernel, p: int, src: Source): Kernel
    requires Is(k, p)
  {
    Block(k.(getfrom := k.getfrom[p := src]), p, {RECEIVING})
  }

  /** p may block in mini_rec: it runs, or it is sending to the very process it wants to hear. */
  ghost predicate MayReceive(k: Kernel, p: int, src: Source)
    requires Is(k, p)
  {
    k.flags[p] == {} || (k.flags[p] == {SENDING} && src == From(k.sendto[p]))
  }

  lemma WaitingLists(k: Kernel, p: int, src: Source)
    requires Lists(k) && Real(k, p)
    ensures Lists(Waiting(k, p, src))
  {
    var k1, k2 := k.(getfrom := k.getfrom[p := src]), Waiting(k, p, src);
    BlockFrame(k1, p, {RECEIVING});
    BlockReady(k1, p, {RECEIVING});
    assert SameSenders(k.flags, k2.flags, {});
    CallersSame(k.flags, k.sendto, k.callers, k2.flags);
    AcyclicFewer(k.flags, k.sendto, k2.flags, k2.sendto);
  }

  /** Whoever is sending to p is none that p would now be waiting for. */
  lemma NoneAcceptable(k: Kernel, p: int, src: Source, q: int)
    requires Lists(k) && Is(k, p) && Sending(k.flags, q) && k.sendto[q] == p
    requires FirstAccepted(k.callers[p], src) == |k.callers[p]|
    ensures !Accepts(src, q)
  {
  }

  ghost predicate NothingAtHand(k: Kernel, p: int, src: Source)
    requires Is(k, p)
  {
    SENDING !in k.flags[p] ==>
      && FirstAccepted(k.callers[p], src) == |k.callers[p]|
      && !(k.intBlocked[p] && Accepts(src, k.slots.hardware))
  }

  lemma WaitingMissesNone(k: Kernel, p: int, src: Source)
    requires Core(k) && Real(k, p) && NothingAtHand(k, p, src) && Lists(Waiting(k, p, src))
    ensures NoMissedMessage(Waiting(k, p, src)) && NoMissedInterrupt(Waiting(k, p, src))
  {
    var k2 := Waiting(k, p, src);
    BlockFrame(k.(getfrom := k.getfrom[p := src]), p, {RECEIVING});
    forall q | 0 <= q < |k2.flags| && SENDING in k2.flags[q]
      ensures !WaitsFor(k2.flags[k2.sendto[q]], k2.getfrom[k2.sendto[q]], q)
    {
      assert Sending(k.flags, q);
      if k.sendto[q] == p && SENDING !in k.flags[p] { NoneAcceptable(k, p, src, q); }
    }
  }

  lemma WaitingKeeps(k: Kernel, p: int, src: Source)
    requires Core(k) && Real(k, p) && MayReceive(k, p, src) && NothingAtHand(k, p, src)
    ensures var k2 := Waiting(k, p, src);
            Almost(k2) && (p != k.slots.mm || src != ANY ==> NoMissedSignal(k2))
  {
    hide LocalOk, ReadyOk, CallersOk, Acyclic, HeldOk, Roles, NoMissedMessage, NoMissedInterrupt, WaitsFor, CountPending, NothingAtHand;
    var k2 := Waiting(k, p, src);
    BlockFrame(k.(getfrom := k.getfrom[p := src]), p, {RECEIVING});
    WaitingLists(k, p, src);
    WaitingMissesNone(k, p, src);
    LocalWait(k, p, src);
    CountUpdate(k.flags, p, k.flags[p] + {RECEIVING});
    hide Block;
    LocalsKeep(k, k2, p);
    Together(k2);
  }

  /** Which of its three ways mini_rec goes. */
  datatype Way = Take(i: nat) | TakeInterrupt | Wait

  ghost function WayOf(k: Kernel, p: int, src: Source): Way
    requires Is(k, p)
  {
    var i := FirstAccepted(k.callers[p], src);
    if SENDING !in k.flags[p] && i < |k.callers[p]| then Take(i)
    else if SENDING !in k.flags[p] && k.intBlocked[p] && Accepts(src, k.slots.hardware) then TakeInterrupt
    else Wait
  }

  lemma RecIs(k: Kernel, p: int, src: Source)
    requires Is(k, p) && Wired(k.flags, k.sendto) && CallersInTable(k)
    ensures var r := MiniRec(k, p, src);
            match WayOf(k, p, src)
            case Take(i) => i < |k.callers[p]| && SENDING !in k.flags[p] && r == Receive(k, p, i)
            case TakeInterrupt => r == k.(intBlocked := k.intBlocked[p := false])
            case Wait =>
              var w := Waiting(k, p, src);
              && Shape(w) && Wired(w.flags, w.sendto)
              && r == if w.sigProcs > 0 && p == w.slots.mm && src == ANY then Inform(w) else w
  {
  }

  lemma InterruptTakenKeeps(k: Kernel, p: int)
    requires Core(k) && Is(k, p)
    ensures Core(k.(intBlocked := k.intBlocked[p := false]))
  {
    var k2 := k.(intBlocked := k.intBlocked[p := false]);
    assert forall j :: 0 <= j < |k.prio| ==> LocalAt(k, j) == LocalAt(k2, j);
  }

  lemma WaitKeeps(k: Kernel, p: int, src: Source)
    requires Core(k) && Real(k, p) && MayReceive(k, p, src) && WayOf(k, p, src) == Wait
    ensures var w := Waiting(k, p, src);
            Almost(w) && Core(if w.sigProcs > 0 && p == w.slots.mm && src == ANY then Inform(w) else w)
  {
    WaitingKeeps(k, p, src);
    var w := Waiting(k, p, src);
    BlockFrame(k.(getfrom := k.getfrom[p := src]), p, {RECEIVING});
    if p == k.slots.mm && src == ANY {
      assert MMListens(w);
      hide Almost, Inform, Waiting;
      if w.sigProcs > 0 { InformKeeps(w); } else { NoSignalsAtAll(w); }
    }
  }

  lemma NoSignalsAtAll(k: Kernel)
    requires Almost(k) && k.sigProcs <= 0
    ensures NoMissedSignal(k)
  {
    CountZero(k.flags);
  }

  lemma RecKeeps(k: Kernel, p: int, src: Source)
    requires Core(k) && Real(k, p) && MayReceive(k, p, src)
    ensures CallersInTable(k) && Core(MiniRec(k, p, src))
  {
    CallersAreInTable(k);
    RecIs(k, p, src);
    match WayOf(k, p, src)
    case Take(i) => ReceiveKeeps(k, p, i);
    case TakeInterrupt => InterruptTakenKeeps(k, p);
    case Wait => WaitKeeps(k, p, src);
  }

  lemma CallersAreInTable(k: Kernel)
    requires Lists(k)
    ensures CallersInTable(k)
  {
    forall p, i | 0 <= p < |k.callers| && 0 <= i < |k.callers[p]| ensures 0 <= k.callers[p][i] < |k.prio| {
      assert k.callers[p][i] in k.callers[p];
      assert Sending(k.flags, k.callers[p][i]);
    }
  }
}
