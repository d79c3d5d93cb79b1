/** What each operation of the kernel does, told by the columns of the process table alone: who loses
    or gains which flag, who is on which queue afterwards, who runs, and what is returned. */
module KernelEffects {
  import opened Chains
  import opened KernelSpec
  import opened KernelInvariant
  import opened KernelSteps
  import opened KernelSignals
  import opened KernelRuns
  import opened SendGraph
  import opened UserQueue

  // ---------------------------------------------------------------- joining and leaving a queue

  /** The best process runs: a task before a server, a server before a user, IDLE if nobody is ready. */
  ghost predicate BestRuns(k: Kernel) {
    && |k.ready| == 3
    && k.procPtr == (if k.ready[0] != [] then k.ready[0][0] else if k.ready[1] != [] then k.ready[1][0]
                     else if k.ready[2] != [] then k.ready[2][0] else k.slots.idle)
  }

  /** p joins the queue of its class: tasks and servers at the end, users at the front. */
  ghost predicate Joins(k: Kernel, k2: Kernel, p: int)
    requires 0 <= p < |k.prio|
  {
    && |k.ready| == 3
    && k2.ready == (match k.prio[p]
                    case PPRI_TASK => [k.ready[0] + [p], k.ready[1], k.ready[2]]
                    case PPRI_SERVER => [k.ready[0], k.ready[1] + [p], k.ready[2]]
                    case _ => [k.ready[0], k.ready[1], [p] + k.ready[2]])
    && k2.procPtr == if k.prio[p] == PPRI_TASK && k.ready[0] == [] then p else k.procPtr
  }

  /** A queue without p. */
  function Others(q: seq<int>, p: int): seq<int> {
    if q == [] then [] else (if q[0] == p then [] else [q[0]]) + Others(q[1..], p)
  }

  /** p leaves the ready queues, and if the best process ran the best process runs; a user or IDLE that is
      picked is billed. */
  ghost predicate Leaves(k: Kernel, k2: Kernel, p: int) {
    && |k.ready| == 3 && k2.ready == [Others(k.ready[0], p), Others(k.ready[1], p), Others(k.ready[2], p)]
    && (BestRuns(k) ==> BestRuns(k2))
    && (k2.billPtr == k.billPtr || (k2.ready[0] == [] && k2.ready[1] == [] && k2.billPtr == k2.procPtr))
  }

  lemma BestIsCurrent(k: Kernel)
    requires |k.ready| == NQ
    ensures Current(k) <==> BestRuns(k)
  {
  }

  lemma {:induction false} OthersNone(q: seq<int>, p: int)
    requires p !in q
    ensures Others(q, p) == q
  {
    if q != [] { OthersNone(q[1..], p); }
  }

  lemma {:induction false} OthersDropped(q: seq<int>, p: int)
    requires Distinct(q)
    ensures IndexOf(q, p) == |q| ==> Others(q, p) == q
    ensures IndexOf(q, p) < |q| ==> Others(q, p) == Dropped(q, IndexOf(q, p))
  {
    if q == [] {
    } else if q[0] == p {
      OthersNone(q[1..], p);
      assert q[..0] + q[1..] == q[1..];
    } else {
      OthersDropped(q[1..], p);
      var i := IndexOf(q[1..], p);
      assert IndexOf(q, p) == i + 1;
      if i + 1 < |q| { assert Dropped(q, i + 1) == [q[0]] + Dropped(q[1..], i); }
    }
  }

  lemma ReadyJoins(k: Kernel, p: int)
    requires Is(k, p)
    ensures Joins(k, Ready(k, p), p) && Ready(k, p) == k.(ready := Ready(k, p).ready, procPtr := Ready(k, p).procPtr)
  {
  }

  lemma UnreadyLeaves(k: Kernel, p: int)
    requires Is(k, p) && ReadyOk(k.prio, k.flags, k.ready, k.slots.hardware) && Real(k, p)
    ensures var r := Unready(k, p); Leaves(k, r, p) && r == k.(ready := r.ready, procPtr := r.procPtr, billPtr := r.billPtr)
  {
    var q, r := QueueOf(k.prio[p]), Unready(k, p);
    forall j | 0 <= j < 3 ensures r.ready[j] == Others(k.ready[j], p) {
      if j == q { OthersDropped(k.ready[j], p); } else { NotInOther(k, p, j); OthersNone(k.ready[j], p); }
    }
    BestIsCurrent(k);
    BestIsCurrent(r);
    if BestRuns(k) { UnreadyCurrent(k, p); }
    assert r.ready == [r.ready[0], r.ready[1], r.ready[2]];
  }

  lemma NotInOther(k: Kernel, p: int, j: int)
    requires Is(k, p) && ReadyOk(k.prio, k.flags, k.ready, k.slots.hardware) && 0 <= j < NQ && j != QueueOf(k.prio[p])
    ensures p !in k.ready[j]
  {
  }

  /** p loses a flag; when that was its last it joins its queue. Nothing else changes. */
  ghost predicate Loses(k: Kernel, k2: Kernel, p: int, f: Flag)
    requires 0 <= p < |k.prio| == |k.flags|
  {
    && k2 == k.(flags := k.flags[p := k.flags[p] - {f}], ready := k2.ready, procPtr := k2.procPtr)
    && if k.flags[p] <= {f} then Joins(k, k2, p) else k2.ready == k.ready && k2.procPtr == k.procPtr
  }

  /** p gains a flag; when it had none it leaves its queue. Nothing else changes. */
  ghost predicate Gains(k: Kernel, k2: Kernel, p: int, f: set<Flag>)
    requires 0 <= p < |k.prio| == |k.flags|
  {
    && k2 == k.(flags := k.flags[p := k.flags[p] + f], ready := k2.ready, procPtr := k2.procPtr, billPtr := k2.billPtr)
    && if k.flags[p] == {} then Leaves(k, k2, p) else k2.ready == k.ready && k2.procPtr == k.procPtr && k2.billPtr == k.billPtr
  }

  lemma UnblockLoses(k: Kernel, p: int, f: Flag)
    requires Is(k, p)
    ensures Loses(k, Unblock(k, p, f), p, f)
  {
    var k1 := k.(flags := k.flags[p := k.flags[p] - {f}]);
    assert k1.flags[p] == {} <==> k.flags[p] <= {f};
    ReadyJoins(k1, p);
    hide Ready;
  }

  lemma BlockGains(k: Kernel, p: int, f: set<Flag>)
    requires Is(k, p) && ReadyOk(k.prio, k.flags, k.ready, k.slots.hardware) && Real(k, p)
    ensures Gains(k, Block(k, p, f), p, f)
  {
    UnreadyLeaves(k, p);
    hide Unready, ReadyOk;
  }

  // ---------------------------------------------------------------- who bills

  /** pick_proc: the best process runs; users and IDLE are billed. */
  lemma PickProcEffect(k: Kernel)
    requires |k.ready| == 3
    ensures var r := PickProc(k);
            && BestRuns(r) && r == k.(procPtr := r.procPtr, billPtr := r.billPtr)
            && r.billPtr == if k.ready[0] == [] && k.ready[1] == [] then r.procPtr else k.billPtr
  {
  }

  // ---------------------------------------------------------------- mini_send

  /** d waits for a message from p, and for nothing else first. */
  ghost predicate Hears(k: Kernel, d: int, p: int)
    requires Is(k, d)
  {
    RECEIVING in k.flags[d] && SENDING !in k.flags[d] && (k.getfrom[d] == ANY || k.getfrom[d] == From(p))
  }

  /** What mini_send returns. */
  ghost function SendStatus(k: Kernel, caller: int, dest: int, addressOk: bool): Status
    requires Is(k, caller) && Is(k, dest) && Wired(k.flags, k.sendto)
  {
    if k.prio[caller] == PPRI_USER && dest != k.slots.fs && dest != k.slots.mm then E_BAD_DEST
    else if k.prio[dest] == PPRI_NONE then E_BAD_DEST
    else if !addressOk then EFAULT
    else if dest != caller && Reaches(k.flags, k.sendto, dest, caller) then ELOCKED
    else OK
  }

  /** The caller is sending to dest, and last in its queue. */
  ghost predicate Enqueued(k: Kernel, k2: Kernel, caller: int, dest: int)
    requires Is(k, caller) && Is(k, dest)
  {
    && k2 == k.(flags := k.flags[caller := k.flags[caller] + {SENDING}], sendto := k.sendto[caller := dest],
                callers := k.callers[dest := k.callers[dest] + [caller]],
                ready := k2.ready, procPtr := k2.procPtr, billPtr := k2.billPtr)
    && Leaves(k, k2, caller)
  }

  /** A message is handed over at once to a process that waits for it, and to no other; otherwise the
      sender waits in the destination's queue; on a refusal nothing happens. */
  lemma SendEffect(k: Kernel, caller: int, dest: int, addressOk: bool)
    requires Almost(k) && Real(k, caller) && Is(k, dest) && k.flags[caller] == {}
    ensures var (r, s) := MiniSend(k, caller, dest, addressOk);
            && s == SendStatus(k, caller, dest, addressOk)
            && (s != OK ==> r == k)
            && (s == OK && Hears(k, dest, caller) ==> Loses(k, r, dest, RECEIVING))
            && (s == OK && !Hears(k, dest, caller) ==> Enqueued(k, r, caller, dest))
  {
    LockedIsReached(k, caller, dest);
    UnblockLoses(k, dest, RECEIVING);
    BlockGains(k, caller, {SENDING});
    hide Block, Unblock, Reaches, Locked, ReadyOk, CallersOk, Acyclic, HeldOk, LocalOk, Others;
  }

  // ---------------------------------------------------------------- inform

  /** i is the first process with signals that MM has not been told of. */
  ghost predicate FirstUntold(k: Kernel, i: int)
    requires Shape(k)
  {
    0 <= i < |k.flags| && PENDING in k.flags[i] && forall j :: 0 <= j < i ==> PENDING !in k.flags[j]
  }

  /** MM has the signals of process i: they are no longer pending, and MM waits no longer. */
  ghost predicate Informed(k: Kernel, k2: Kernel, i: int)
    requires Shape(k) && 0 <= i < |k.flags|
  {
    var mm := k.slots.mm;
    && k2 == k.(flags := k2.flags, ready := k2.ready, procPtr := k2.procPtr, billPtr := k2.billPtr,
                pending := k.pending[i := {}], sigProcs := k.sigProcs - 1)
    && k2.flags == k.flags[mm := k.flags[mm] - {RECEIVING}][i := k.flags[i] - {PENDING}]
    && k2.ready == (if k.flags[mm] <= {RECEIVING} then [k.ready[0], k.ready[1] + [mm], k.ready[2]] else k.ready)
    && BestRuns(k2)
  }

  lemma InformEffect(k: Kernel)
    requires Almost(k) && MMListens(k)
    ensures (forall i :: 0 <= i < |k.flags| ==> PENDING !in k.flags[i]) ==> Inform(k) == k
    ensures forall i :: FirstUntold(k, i) ==> i != k.slots.mm && Informed(k, Inform(k), i)
  {
    InformIs(k);
    UnblockLoses(k, k.slots.mm, RECEIVING);
    forall i | FirstUntold(k, i) ensures i > k.slots.mm && i == FirstPending(k.flags, k.slots.mm) {
      PendingIsUser(k, i);
      var j := FirstPending(k.flags, k.slots.mm);
      if j < |k.flags| { assert j >= i; }
    }
    RolesMM(k);
    hide Inform, Unblock, Almost, FirstPending;
    forall i | FirstUntold(k, i) ensures Informed(k, Inform(k), i) {
      var u := Unblock(k, k.slots.mm, RECEIVING);
      assert Inform(k) == Told(u, i);
      assert u.flags[k.slots.mm := u.flags[k.slots.mm]] == u.flags;
    }
  }

  lemma RolesMM(k: Kernel)
    requires Almost(k)
    ensures k.prio[k.slots.mm] == PPRI_SERVER
  {
  }

  // ---------------------------------------------------------------- mini_rec

  /** p would take a message from q. */
  ghost predicate Wanted(src: Source, q: int) {
    src == ANY || src == From(q)
  }

  /** Caller i of p's queue is the first p would take a message from. */
  ghost predicate FirstWanted(k: Kernel, p: int, src: Source, i: int)
    requires Is(k, p)
  {
    0 <= i < |k.callers[p]| && Wanted(src, k.callers[p][i]) && forall j :: 0 <= j < i ==> !Wanted(src, k.callers[p][j])
  }

  /** The message of the sender c is taken: c has left p's queue, and SENDING. */
  ghost predicate Took(k: Kernel, k2: Kernel, p: int, c: int)
    requires Is(k, p) && Is(k, c)
  {
    Loses(k.(callers := k.callers[p := Others(k.callers[p], c)]), k2, c, SENDING)
  }

  /** p waits for src. */
  ghost predicate Waits(k: Kernel, k2: Kernel, p: int, src: Source)
    requires Is(k, p)
  {
    Gains(k.(getfrom := k.getfrom[p := src]), k2, p, {RECEIVING})
  }

  ghost predicate NoneWanted(k: Kernel, p: int, src: Source)
    requires Is(k, p)
  {
    forall i :: 0 <= i < |k.callers[p]| ==> !Wanted(src, k.callers[p][i])
  }

  /** p waits for src; MM, if it waits for work while there are signals to tell it of, is told at once. */
  ghost predicate Blocks(k: Kernel, k2: Kernel, p: int, src: Source)
    requires Is(k, p)
  {
    if p == k.slots.mm && src == ANY && k.sigProcs > 0 then
      exists w, i :: Shape(w) && Waits(k, w, p, src) && FirstUntold(w, i) && Informed(w, k2, i)
    else Waits(k, k2, p, src)
  }

  /** The three ways of mini_rec: the first acceptable sender's message, an interrupt on record, or to
      wait. */
  ghost predicate Receives(k: Kernel, k2: Kernel, p: int, src: Source)
    requires Is(k, p)
  {
    if SENDING !in k.flags[p] && exists i :: FirstWanted(k, p, src, i) then
      exists i :: FirstWanted(k, p, src, i) && Is(k, k.callers[p][i]) && Took(k, k2, p, k.callers[p][i])
    else if SENDING !in k.flags[p] && k.intBlocked[p] && Wanted(src, k.slots.hardware) then
      k2 == k.(intBlocked := k.intBlocked[p := false])
    else Blocks(k, k2, p, src)
  }

  lemma RecEffect(k: Kernel, p: int, src: Source)
    requires Core(k) && Real(k, p) && MayReceive(k, p, src) && CallersInTable(k)
    ensures Receives(k, MiniRec(k, p, src), p, src)
  {
    RecIs(k, p, src);
    WayIs(k, p, src);
    if WayOf(k, p, src).Take? { TakesFirst(k, p, WayOf(k, p, src).i); }
    if WayOf(k, p, src) == Wait { WaitBlocks(k, p, src); }
    hide MiniRec, Core, WayOf, MayReceive, Took, Waiting, Inform, Blocks, FirstWanted, Receive, CallersInTable;
  }

  lemma WayIs(k: Kernel, p: int, src: Source)
    requires Is(k, p)
    ensures var w := WayOf(k, p, src);
            && (w.Take? <==> SENDING !in k.flags[p] && exists i :: FirstWanted(k, p, src, i))
            && (w.Take? ==> w.i < |k.callers[p]| && FirstWanted(k, p, src, w.i))
            && (!w.Take? ==> (w == TakeInterrupt <==> SENDING !in k.flags[p] && k.intBlocked[p] && Wanted(src, k.slots.hardware)))
  {
    var j := FirstAccepted(k.callers[p], src);
    if j < |k.callers[p]| { assert FirstWanted(k, p, src, j); }
  }

  lemma WaitBlocks(k: Kernel, p: int, src: Source)
    requires Core(k) && Real(k, p) && MayReceive(k, p, src) && CallersInTable(k) && WayOf(k, p, src) == Wait
    ensures Blocks(k, MiniRec(k, p, src), p, src)
  {
    RecIs(k, p, src);
    var w := Waiting(k, p, src);
    BlockGains(k.(getfrom := k.getfrom[p := src]), p, {RECEIVING});
    WaitingSame(k, p, src);
    WaitKeeps(k, p, src);
    if p == k.slots.mm && src == ANY {
      WaitingListens(k, p);
      if k.sigProcs > 0 {
        SomeUntold(w);
        var i := FirstPending(w.flags, 0);
        hide *;
        InformEffect(w);
      }
    }
  }

  lemma SomeUntold(k: Kernel)
    requires Almost(k) && k.sigProcs > 0
    ensures FirstUntold(k, FirstPending(k.flags, 0))
  {
    CountZero(k.flags);
  }

  lemma WaitingSame(k: Kernel, p: int, src: Source)
    requires Is(k, p)
    ensures var w := Waiting(k, p, src); w.sigProcs == k.sigProcs && w.slots == k.slots
    ensures Waiting(k, p, src) == Block(k.(getfrom := k.getfrom[p := src]), p, {RECEIVING})
  {
  }

  lemma TakesFirst(k: Kernel, p: int, i: nat)
    requires Core(k) && Is(k, p) && i < |k.callers[p]|
    ensures Is(k, k.callers[p][i]) && Took(k, Receive(k, p, i), p, k.callers[p][i])
  {
    var c := k.callers[p][i];
    CallerIsSending(k, p, i);
    CallersDistinct(k, p);
    OthersDropped(k.callers[p], c);
    DistinctIndex(k.callers[p], i);
    UnblockLoses(k.(callers := k.callers[p := Dropped(k.callers[p], i)]), c, SENDING);
  }

  lemma CallersDistinct(k: Kernel, p: int)
    requires Core(k) && Is(k, p)
    ensures Distinct(k.callers[p])
  {
  }

  lemma {:induction false} DistinctIndex(q: seq<int>, i: nat)
    requires Distinct(q) && i < |q|
    ensures IndexOf(q, q[i]) == i
  {
    if i > 0 { DistinctIndex(q[1..], i - 1); }
  }

  // ---------------------------------------------------------------- sys_call

  ghost function TrapStatus(k: Kernel, f: Function, other: Source, addressOk: bool): Status
    requires Is(k, k.procPtr) && Wired(k.flags, k.sendto)
  {
    if other.From? && !(0 <= other.slot < |k.prio|) then E_BAD_SRC
    else if k.prio[k.procPtr] == PPRI_USER && f != BOTH then E_NO_PERM
    else if f == RECEIVE then OK
    else if other == ANY then E_BAD_DEST
    else SendStatus(k, k.procPtr, other.slot, addressOk)
  }

  /** The message is with d, who waits for it no longer, or its sender p is last in d's queue. */
  ghost predicate Sent(k: Kernel, k2: Kernel, p: int, d: int)
    requires Is(k, p) && Is(k, d)
  {
    if Hears(k, d, p) then Loses(k, k2, d, RECEIVING) else Enqueued(k, k2, p, d)
  }

  /** A send, and then waiting for the answer. */
  ghost predicate SentAndWaits(k: Kernel, k2: Kernel, p: int, d: int)
    requires Is(k, p) && Is(k, d)
  {
    exists m :: Is(m, p) && Sent(k, m, p, d) && Waits(m, k2, p, From(d))
  }

  lemma TrapEffect(k: Kernel, f: Function, other: Source, addressOk: bool)
    requires Inv(k) && TrapAllowed(k, f, other)
    ensures Wired(k.flags, k.sendto) && CallersInTable(k)
    ensures var p, (r, s) := k.procPtr, SysCall(k, f, other, addressOk);
            && s == TrapStatus(k, f, other, addressOk)
            && (s != OK ==> r == k)
            && (s == OK && f == RECEIVE ==> Receives(k, r, p, other))
            && (s == OK && f == SEND ==> other.From? && Is(k, other.slot) && Sent(k, r, p, other.slot))
            && (s == OK && f == BOTH ==> other.From? && Is(k, other.slot) && SentAndWaits(k, r, p, other.slot))
  {
    hide Inv, Core, Almost, Wired, CallersInTable, Receives, Sent, SentAndWaits, SendStatus, MiniSend, MiniRec, Reaches, MayReceive;
    InvCore(k);
    CallersAreInTable(k);
    Running(k);
    var p := k.procPtr;
    if other.From? && !(0 <= other.slot < |k.prio|) {
    } else if k.prio[p] == PPRI_USER && f != BOTH {
    } else if f == RECEIVE {
      RunnableMayReceive(k, p, other);
      RecEffect(k, p, other);
    } else if other.From? {
      SendIsSent(k, p, other.slot, addressOk);
      if f == BOTH && MiniSend(k, p, other.slot, addressOk).1 == OK {
        ToAnother(k, other.slot, addressOk);
        BothEffect(k, p, other.slot);
      }
    }
  }

  lemma InvCore(k: Kernel)
    requires Inv(k)
    ensures Core(k) && Almost(k) && Wired(k.flags, k.sendto)
  {
  }

  lemma RunnableMayReceive(k: Kernel, p: int, src: Source)
    requires Is(k, p) && k.flags[p] == {}
    ensures MayReceive(k, p, src)
  {
  }

  lemma SendIsSent(k: Kernel, p: int, d: int, addressOk: bool)
    requires Almost(k) && Real(k, p) && Is(k, d) && k.flags[p] == {}
    ensures Wired(k.flags, k.sendto)
    ensures var (r, s) := MiniSend(k, p, d, addressOk);
            s == SendStatus(k, p, d, addressOk) && if s == OK then Sent(k, r, p, d) else r == k
  {
    SendEffect(k, p, d, addressOk);
    hide MiniSend, Almost, Loses, Enqueued, SendStatus;
  }

  lemma SenderFindsNothing(k: Kernel, p: int, d: int)
    requires Core(k) && Real(k, p) && Is(k, d) && k.flags[p] == {} && d != p && MiniSend(k, p, d, true).1 == OK
    ensures var m := MiniSend(k, p, d, true).0;
            Real(m, p) && MayReceive(m, p, From(d)) && WayOf(m, p, From(d)) == Wait
  {
    AfterSend(k, p, d, true);
    SendIsSent(k, p, d, true);
    var m := MiniSend(k, p, d, true).0;
    if Hears(k, d, p) {
      assert LocalAt(k, d);
      NotAmong(k, p, d);
      assert m.callers == k.callers && m.flags[p] == {};
    } else {
      assert SENDING in m.flags[p];
    }
  }

  lemma NotAmong(k: Kernel, p: int, d: int)
    requires Core(k) && Is(k, p) && Is(k, d) && SENDING !in k.flags[d]
    ensures FirstAccepted(k.callers[p], From(d)) == |k.callers[p]|
  {
    forall i | 0 <= i < |k.callers[p]| ensures k.callers[p][i] != d { CallerIsSending(k, p, i); }
  }

  /** After a send that was accepted the sender finds nothing at hand from the destination: it waits. */
  lemma BothEffect(k: Kernel, p: int, d: int)
    requires Core(k) && Real(k, p) && Is(k, d) && k.flags[p] == {} && CallersInTable(k) && d != p
    requires Wired(k.flags, k.sendto) && MiniSend(k, p, d, true).1 == OK
    ensures var m := MiniSend(k, p, d, true).0;
            Is(m, p) && Wired(m.flags, m.sendto) && CallersInTable(m) && SentAndWaits(k, MiniRec(m, p, From(d)), p, d)
  {
    hide MiniSend, MiniRec, Core, Almost, Sent, WayOf, Waiting, Block, MayReceive, Gains, CallersInTable, ReadyOk;
    var m := MiniSend(k, p, d, true).0;
    CoreAlmost(k);
    SendIsSent(k, p, d, true);
    SendKeepsWired(k, p, d, true);
    SenderFindsNothing(k, p, d);
    SendKeeps(k, p, d, true);
    RecIs(m, p, From(d));
    AlmostReady(m);
    BlockGains(m.(getfrom := m.getfrom[p := From(d)]), p, {RECEIVING});
    WaitingSame(m, p, From(d));
  }

  lemma CoreAlmost(k: Kernel)
    requires Core(k)
    ensures Almost(k)
  {
  }

  lemma AlmostReady(k: Kernel)
    requires Almost(k)
    ensures ReadyOk(k.prio, k.flags, k.ready, k.slots.hardware)
  {
  }

  /** Nobody's accepted message is to itself. */
  lemma ToAnother(k: Kernel, d: int, addressOk: bool)
    requires Inv(k) && TrapAllowed(k, BOTH, From(d)) && Is(k, d) && MiniSend(k, k.procPtr, d, addressOk).1 == OK
    ensures d != k.procPtr && addressOk
  {
    InvCore(k);
  }

  lemma {:induction false} OthersMembers(q: seq<int>, p: int)
    ensures forall x :: x in Others(q, p) <==> x in q && x != p
  {
    if q != [] {
      OthersMembers(q[1..], p);
      assert q == [q[0]] + q[1..];
    }
  }

  /** Which ready queue a process belongs on. */
  function ClassQueue(pr: Priority): (q: nat)
    ensures q < 3
  {
    match pr case PPRI_TASK => 0 case PPRI_SERVER => 1 case _ => 2
  }

  /** No accepted message is lost: either its destination was waiting for it and is ready unless a
      signal or a missing map holds it back, or its sender is last in the destination's queue. */
  lemma MessageArrives(k: Kernel, f: Function, d: int, addressOk: bool)
    requires Inv(k) && TrapAllowed(k, f, From(d)) && f != RECEIVE && Allowed(k, Trap(f, From(d), addressOk))
    requires Wired(k.flags, k.sendto) && TrapStatus(k, f, From(d), addressOk) == OK
    ensures Is(k, d)
    ensures var p, r := k.procPtr, Do(k, Trap(f, From(d), addressOk));
            && Is(r, p) && Is(r, d) && (RECEIVING in r.flags[p] <==> f == BOTH)
            && if Hears(k, d, p) then
                 && r.flags[d] == k.flags[d] - {RECEIVING} && r.callers == k.callers
                 && (k.flags[d] == {RECEIVING} ==> d in r.ready[ClassQueue(k.prio[d])])
               else
                 && SENDING in r.flags[p] && r.sendto[p] == d && r.callers == k.callers[d := k.callers[d] + [p]]
  {
    var p, r := k.procPtr, Do(k, Trap(f, From(d), addressOk));
    InvReads(k);
    Running(k);
    TrapEffect(k, f, From(d), addressOk);
    NotToSelf(k, f, d, addressOk);
    hide Inv, SysCall, TrapStatus, TrapAllowed, Sent, Waits;
    if f == BOTH {
      var m :| Is(m, p) && Sent(k, m, p, d) && Waits(m, r, p, From(d));
      SentMeans(k, m, p, d);
      WaitsMeans(m, r, p, d);
    } else {
      SentMeans(k, r, p, d);
    }
  }

  lemma SentMeans(k: Kernel, r: Kernel, p: int, d: int)
    requires Is(k, p) && Is(k, d) && d != p && k.flags[p] == {} && Sent(k, r, p, d)
    ensures Is(r, p) && Is(r, d) && r.prio == k.prio && RECEIVING !in r.flags[p]
    ensures if Hears(k, d, p) then
              && r.flags[d] == k.flags[d] - {RECEIVING} && r.callers == k.callers
              && (k.flags[d] == {RECEIVING} ==> d in r.ready[ClassQueue(k.prio[d])])
            else
              SENDING in r.flags[p] && r.sendto[p] == d && r.callers == k.callers[d := k.callers[d] + [p]]
  {
    hide BestRuns, Others;
  }

  lemma WaitsMeans(m: Kernel, r: Kernel, p: int, d: int)
    requires Is(m, p) && Is(m, d) && d != p && Waits(m, r, p, From(d))
    ensures Is(r, p) && r.prio == m.prio && r.sendto == m.sendto && r.callers == m.callers && r.flags[d] == m.flags[d]
    ensures r.flags[p] == m.flags[p] + {RECEIVING}
    ensures forall q :: 0 <= q < 3 && d in m.ready[q] ==> d in r.ready[q]
  {
    hide BestRuns, Others;
    OthersMembers(m.ready[0], p);
    OthersMembers(m.ready[1], p);
    OthersMembers(m.ready[2], p);
  }

  lemma NotToSelf(k: Kernel, f: Function, d: int, addressOk: bool)
    requires Inv(k) && TrapAllowed(k, f, From(d)) && f != RECEIVE && Wired(k.flags, k.sendto)
    requires TrapStatus(k, f, From(d), addressOk) == OK
    ensures d != k.procPtr && Is(k, d)
  {
    InvCore(k);
  }
}
