/** What interrupts, signals and the system task's requests do, told by the columns of the process table
    alone; and what becomes of an interrupt over a run. */
module KernelEvents {
  import opened Chains
  import opened KernelSpec
  import opened KernelInvariant
  import opened KernelSteps
  import opened KernelSignals
  import opened KernelRuns
  import opened KernelEffects
  import opened KernelHistory
  import opened UserQueue

  // ---------------------------------------------------------------- interrupts

  /** t waits for an interrupt. */
  ghost predicate HearsHardware(k: Kernel, t: int)
    requires Is(k, t)
  {
    Hears(k, t, k.slots.hardware)
  }

  /** A task that waits for its interrupt goes on, at the end of TASK_Q. */
  ghost predicate Delivered(k: Kernel, k2: Kernel, t: int)
    requires Is(k, t)
  {
    && k2 == k.(flags := k.flags[t := {}], intBlocked := k.intBlocked[t := false], ready := k2.ready, procPtr := k2.procPtr)
    && k2.ready == [k.ready[0] + [t], k.ready[1], k.ready[2]]
    && k2.procPtr == if k.ready[0] == [] then t else k.procPtr
  }

  /** An interrupt that competes is held, once; one for a task that does not wait for it is put on
      record; one for a task that waits is delivered. */
  lemma InterruptEffect(k: Kernel, t: int, competing: bool)
    requires Core(k) && IsTask(k, t)
    ensures var r := Interrupt(k, t, competing);
            if competing then
              r == k.(intHeld := k.intHeld[t := true], held := if t in k.held then k.held else k.held + [t])
            else if HearsHardware(k, t) then k.flags[t] == {RECEIVING} && Delivered(k, r, t)
            else r == k.(intBlocked := k.intBlocked[t := true])
  {
    assert LocalAt(k, t);
    var r := Interrupt(k, t, competing);
    if competing {
      if t in k.held { assert k.intHeld[t := true] == k.intHeld; }
    } else if HearsHardware(k, t) {
      assert k.flags[t] == {RECEIVING};
      assert k.flags[t] - {RECEIVING} == {};
      assert r.ready == [k.ready[0] + [t], k.ready[1], k.ready[2]];
    }
  }

  /** No interrupt is forgotten. */
  lemma InterruptNoted(k: Kernel, t: int, competing: bool)
    requires Core(k) && IsTask(k, t)
    ensures var r := Interrupt(k, t, competing);
            && Is(r, t)
            && (competing ==> t in r.held)
            && (!competing ==> r.intBlocked[t] || (HearsHardware(k, t) && RECEIVING !in r.flags[t] && t in r.ready[0]))
  {
    InterruptEffect(k, t, competing);
    hide Interrupt, Core;
  }

  /** Those of ts that wait for an interrupt. */
  ghost function Heard(k: Kernel, ts: seq<int>): seq<int>
    requires Shape(k) && forall i :: 0 <= i < |ts| ==> 0 <= ts[i] < |k.prio|
  {
    if ts == [] then [] else (if HearsHardware(k, ts[0]) then [ts[0]] else []) + Heard(k, ts[1..])
  }

  ghost predicate ReleasedQueues(k: Kernel, k2: Kernel)
    requires Shape(k) && forall i :: 0 <= i < |k.held| ==> 0 <= k.held[i] < |k.prio|
  {
    && k2 == k.(flags := k2.flags, intBlocked := k2.intBlocked, intHeld := k2.intHeld, held := [], ready := k2.ready, procPtr := k2.procPtr)
    && |k2.flags| == |k2.intBlocked| == |k2.intHeld| == |k.prio|
    && k2.ready == [k.ready[0] + Heard(k, k.held), k.ready[1], k.ready[2]]
  }

  ghost predicate ReleasedTask(k: Kernel, k2: Kernel, t: int)
    requires Is(k, t) && Is(k2, t)
  {
    if t !in k.held then k2.flags[t] == k.flags[t] && k2.intBlocked[t] == k.intBlocked[t] && k2.intHeld[t] == k.intHeld[t]
    else if HearsHardware(k, t) then k2.flags[t] == {} && !k2.intBlocked[t] && !k2.intHeld[t]
    else k2.flags[t] == k.flags[t] && k2.intBlocked[t] && !k2.intHeld[t]
  }

  /** After unhold: each task that waited for its interrupt has it, and is at the end of TASK_Q, in the
      order the interrupts came; for each of the others it is on record. */
  ghost predicate Released(k: Kernel, k2: Kernel)
    requires Shape(k) && forall i :: 0 <= i < |k.held| ==> 0 <= k.held[i] < |k.prio|
  {
    ReleasedQueues(k, k2) && forall t :: 0 <= t < |k.prio| ==> ReleasedTask(k, k2, t)
  }

  lemma {:induction false} UnholdEffect(k: Kernel)
    requires Core(k)
    ensures forall i :: 0 <= i < |k.held| ==> 0 <= k.held[i] < |k.prio|
    ensures Released(k, Unhold(k))
    decreases |k.held|
  {
    forall i | 0 <= i < |k.held| ensures 0 <= k.held[i] < |k.prio| { assert k.held[i] in k.held; }
    if k.held == [] {
      assert k.ready[0] + [] == k.ready[0];
      assert [k.ready[0], k.ready[1], k.ready[2]] == k.ready;
    } else {
      ReleaseIs(k);
      UnholdEffect(ReleaseHeld(k));
      FirstReleased(k);
      HeldFacts(k);
      hide Core, ReleaseHeld, Unhold;
      ThenReleased(k, ReleaseHeld(k), Unhold(ReleaseHeld(k)));
    }
  }

  lemma HeldFacts(k: Kernel)
    requires Core(k) && k.held != []
    ensures Distinct(k.held) && Is(k, k.held[0])
    ensures forall i :: 0 <= i < |k.held| ==> 0 <= k.held[i] < |k.prio|
    ensures Shape(ReleaseHeld(k)) && ReleaseHeld(k).held == k.held[1..] && |ReleaseHeld(k).prio| == |k.prio|
    ensures Unhold(k) == Unhold(ReleaseHeld(k))
  {
    forall i | 0 <= i < |k.held| ensures 0 <= k.held[i] < |k.prio| { assert k.held[i] in k.held; }
    ReleaseIs(k);
  }

  /** What releasing the oldest held interrupt does. */
  ghost predicate ReleasedFirst(k: Kernel, k1: Kernel, t: int)
    requires Is(k, t) && k.held != []
  {
    if HearsHardware(k, t) then
      && k1 == k.(flags := k.flags[t := {}], intBlocked := k.intBlocked[t := false], intHeld := k.intHeld[t := false],
                  held := k.held[1..], ready := [k.ready[0] + [t], k.ready[1], k.ready[2]], procPtr := k1.procPtr)
    else k1 == k.(intBlocked := k.intBlocked[t := true], intHeld := k.intHeld[t := false], held := k.held[1..])
  }

  lemma FirstReleased(k: Kernel)
    requires Core(k) && k.held != []
    ensures Is(k, k.held[0]) && |k.held| > 0 && ReleasedFirst(k, ReleaseHeld(k), k.held[0])
  {
    HeldFewer(k);
    var k1 := k.(held := k.held[1..], intHeld := k.intHeld[k.held[0] := false]);
    InterruptEffect(k1, k.held[0], false);
    hide Core, Interrupt;
  }

  lemma ThenReleased(k: Kernel, k1: Kernel, k2: Kernel)
    requires Shape(k) && k.held != [] && Distinct(k.held) && Is(k, k.held[0])
    requires forall i :: 0 <= i < |k.held| ==> 0 <= k.held[i] < |k.prio|
    requires |k.held| > 0 && ReleasedFirst(k, k1, k.held[0])
    requires Shape(k1) && (forall i :: 0 <= i < |k1.held| ==> 0 <= k1.held[i] < |k1.prio|) && Released(k1, k2)
    ensures Released(k, k2)
  {
    var t0 := k.held[0];
    assert k.held == [t0] + k.held[1..];
    forall i | 0 <= i < |k.held[1..]| ensures HearsHardware(k1, k.held[1..][i]) == HearsHardware(k, k.held[1..][i]) {
      OtherHears(k, k1, k.held[1..][i]);
    }
    HeardSame(k, k1, k.held[1..]);
    QueuesReleased(k, k1, k2, Heard(k, k.held[1..]));
    hide Heard, ReleasedFirst, ReleasedQueues;
    forall t | 0 <= t < |k.prio| ensures ReleasedTask(k, k2, t) { TaskReleased(k, k1, k2, t); }
  }

  lemma OtherHears(k: Kernel, k1: Kernel, t: int)
    requires Is(k, t) && k.held != [] && Is(k, k.held[0]) && ReleasedFirst(k, k1, k.held[0]) && t != k.held[0]
    ensures Is(k1, t) && HearsHardware(k1, t) == HearsHardware(k, t) && |k1.prio| == |k.prio|
  {
  }

  lemma QueuesReleased(k: Kernel, k1: Kernel, k2: Kernel, rest: seq<int>)
    requires Shape(k) && k.held != [] && Is(k, k.held[0])
    requires forall i :: 0 <= i < |k.held| ==> 0 <= k.held[i] < |k.prio|
    requires ReleasedFirst(k, k1, k.held[0])
    requires Shape(k1) && (forall i :: 0 <= i < |k1.held| ==> 0 <= k1.held[i] < |k1.prio|) && ReleasedQueues(k1, k2)
    requires rest == Heard(k, k.held[1..]) == Heard(k1, k1.held)
    ensures ReleasedQueues(k, k2)
  {
    assert (k.ready[0] + [k.held[0]]) + rest == k.ready[0] + ([k.held[0]] + rest) && [] + rest == rest;
    hide HearsHardware;
  }

  lemma TaskReleased(k: Kernel, k1: Kernel, k2: Kernel, t: int)
    requires Is(k, t) && Is(k1, t) && Is(k2, t) && k.held != [] && Distinct(k.held) && Is(k, k.held[0])
    requires ReleasedFirst(k, k1, k.held[0]) && ReleasedTask(k1, k2, t)
    ensures ReleasedTask(k, k2, t)
  {
    var t0 := k.held[0];
    assert k.held == [t0] + k.held[1..];
    assert t0 !in k.held[1..];
    if t != t0 { OtherHears(k, k1, t); }
  }

  lemma {:induction false} HeardSame(k: Kernel, k1: Kernel, ts: seq<int>)
    requires Shape(k) && Shape(k1) && |k1.prio| == |k.prio| && forall i :: 0 <= i < |ts| ==> 0 <= ts[i] < |k.prio|
    requires forall i :: 0 <= i < |ts| ==> HearsHardware(k1, ts[i]) == HearsHardware(k, ts[i])
    ensures Heard(k1, ts) == Heard(k, ts)
  {
    if ts != [] { HeardSame(k, k1, ts[1..]); }
  }

  // ---------------------------------------------------------------- cause_sig, do_endsig

  /** One more signal of p is pending, and counted. */
  ghost predicate OneMore(k: Kernel, k2: Kernel, p: int, sig: int)
    requires Is(k, p)
  {
    k2 == k.(pending := k.pending[p := k.pending[p] + {sig}], pendcount := k.pendcount[p := k.pendcount[p] + 1])
  }

  /** p is held back with a first signal. */
  ghost predicate HeldWith(k: Kernel, k2: Kernel, p: int, sig: int)
    requires Is(k, p)
  {
    exists m :: Is(m, p) && OneMore(k, m, p, sig) && Gains(m.(sigProcs := m.sigProcs + 1), k2, p, {PENDING, SIG_PENDING})
  }

  /** A signal already pending is ignored; a further one is recorded; the first holds the process back,
      and if MM waits for work it is told of the first process with signals. */
  lemma CauseSigEffect(k: Kernel, p: int, sig: int)
    requires Core(k) && Is(k, p) && k.prio[p] == PPRI_USER
    ensures Wired(k.flags, k.sendto)
    ensures var r := CauseSig(k, p, sig);
            if sig in k.pending[p] then r == k
            else if PENDING in k.flags[p] then OneMore(k, r, p, sig)
            else exists h :: Shape(h) && HeldWith(k, h, p, sig)
                             && if RECEIVING in k.flags[k.slots.mm] && k.getfrom[k.slots.mm] == ANY then
                                  exists i :: FirstUntold(h, i) && Informed(h, r, i)
                                else r == h
  {
    CauseIs(k, p, sig);
    if sig !in k.pending[p] && PENDING !in k.flags[p] {
      NotHardware(k, p);
      HeldBackKeeps(k, p, sig);
      var h := HeldBack(k, p, sig);
      HeldBackWith(k, p, sig);
      if MMListens(h) {
        SomeUntold(h);
        InformEffect(h);
      }
      hide Core, Almost, Inform, HeldBack, CauseSig, HeldWith, Informed, FirstUntold;
    }
  }

  lemma HeldBackWith(k: Kernel, p: int, sig: int)
    requires Core(k) && Is(k, p) && k.prio[p] == PPRI_USER && p != k.slots.hardware
    ensures var h := HeldBack(k, p, sig);
            && Shape(h) && HeldWith(k, h, p, sig)
            && (MMListens(h) <==> RECEIVING in k.flags[k.slots.mm] && k.getfrom[k.slots.mm] == ANY)
  {
    var m, h := Recorded(k, p, sig), HeldBack(k, p, sig);
    assert OneMore(k, m, p, sig);
    AlmostReady(k);
    BlockGains(m, p, {PENDING, SIG_PENDING});
    BlockFrame(m, p, {PENDING, SIG_PENDING});
    UserIsNotMM(k, p);
    hide Block, Core;
    assert Gains(m.(sigProcs := m.sigProcs + 1), h, p, {PENDING, SIG_PENDING});
  }

  lemma UserIsNotMM(k: Kernel, p: int)
    requires Core(k) && Is(k, p) && k.prio[p] == PPRI_USER
    ensures p != k.slots.mm
  {
  }

  /** do_endsig counts one signal off, and the last one lets the process go. */
  lemma EndSigEffect(k: Kernel, p: int)
    requires Is(k, p)
    ensures var (r, s) := EndSig(k, p);
            && s == (if k.prio[p] == PPRI_NONE then E_BAD_PROC else OK)
            && if k.prio[p] == PPRI_NONE || k.pendcount[p] == 0 then r == k
               else if k.pendcount[p] > 1 then r == k.(pendcount := k.pendcount[p := k.pendcount[p] - 1])
               else Loses(k.(pendcount := k.pendcount[p := 0]), r, p, SIG_PENDING)
  {
    if k.pendcount[p] == 1 { UnblockLoses(k.(pendcount := k.pendcount[p := 0]), p, SIG_PENDING); }
    hide Unblock;
  }

  // ---------------------------------------------------------------- do_newmap, do_setGroup, do_xit, do_fork

  /** After do_newmap nothing is missing of the map, and a process that nothing else holds back is on
      its ready queue. */
  lemma NewMapEffect(k: Kernel, p: int)
    requires Core(k) && Real(k, p)
    ensures var r := NewMap(k, p);
            && Is(r, p) && r.flags == k.flags[p := k.flags[p] - {NO_MAP}]
            && (k.flags[p] == {} ==> r == k) && (k.flags[p] != {} ==> Loses(k, r, p, NO_MAP))
            && (k.flags[p] <= {NO_MAP} ==> p in r.ready[ClassQueue(k.prio[p])])
  {
    if k.flags[p] == {} {
      assert Runnable(k.prio, k.flags, k.slots.hardware, p);
      assert k.flags[p] - {NO_MAP} == {};
      assert k.flags[p := {}] == k.flags;
    } else {
      UnblockLoses(k, p, NO_MAP);
    }
    hide Unblock, Core;
  }

  /** do_setGroup sets the group of the first slot with this pid, or refuses and changes nothing. */
  lemma SetGroupEffect(k: Kernel, pid: int, group: int)
    requires Shape(k)
    ensures var (r, s) := SetGroup(k, pid, group);
            && (s == OK <==> 0 <= group <= 2 && pid != 0 && exists i :: 0 <= i < |k.pid| && k.pid[i] == pid)
            && (s != OK ==> s == EFAULT && r == k)
            && (s == OK ==> exists i :: 0 <= i < |k.pid| && k.pid[i] == pid && (forall j :: 0 <= j < i ==> k.pid[j] != pid)
                                        && r == k.(group := k.group[i := group]))
  {
    var i := FindPid(k.pid, pid);
    if i < |k.pid| { assert k.pid[i] == pid; }
  }

  /** do_xit: the slot is empty, and the process in no queue. */
  lemma ExitEffect(k: Kernel, p: int)
    requires Core(k) && Is(k, p) && k.prio[p] == PPRI_USER
    ensures Wired(k.flags, k.sendto)
    ensures var r := Exit(k, p);
            && r == k.(prio := k.prio[p := PPRI_NONE], flags := k.flags[p := {}], pending := k.pending[p := {}],
                       pendcount := k.pendcount[p := 0], sigProcs := r.sigProcs,
                       callers := r.callers, ready := r.ready, procPtr := r.procPtr, billPtr := r.billPtr)
            && r.sigProcs == k.sigProcs - (if PENDING in k.flags[p] then 1 else 0)
            && Leaves(k, r, p)
            && r.callers == if SENDING in k.flags[p] then k.callers[k.sendto[p] := Others(k.callers[k.sendto[p]], p)] else k.callers
  {
    ExitFrame(k, p);
    NotHardware(k, p);
    AlmostReady(k);
    if k.flags[p] == {} { UnreadyLeaves(k, p); } else { AlreadyAway(k, p); }
    LeavesCallers(k, p);
    hide Exit, Unready, Core, Others, LeaveQueue;
  }

  lemma AlreadyAway(k: Kernel, p: int)
    requires Core(k) && Is(k, p) && k.flags[p] != {}
    ensures Leaves(k, k, p)
  {
    NotQueued(k.prio, k.flags, k.ready, k.slots.hardware, p);
    OthersNone(k.ready[0], p);
    OthersNone(k.ready[1], p);
    OthersNone(k.ready[2], p);
    assert k.ready == [k.ready[0], k.ready[1], k.ready[2]];
  }

  lemma LeavesCallers(k: Kernel, p: int)
    requires Core(k) && Is(k, p)
    ensures Wired(k.flags, k.sendto)
    ensures SENDING in k.flags[p] ==> 0 <= k.sendto[p] < |k.callers|
    ensures LeaveQueue(k, p).callers ==
            if SENDING in k.flags[p] then k.callers[k.sendto[p] := Others(k.callers[k.sendto[p]], p)] else k.callers
  {
    if SENDING in k.flags[p] {
      var d := k.sendto[p];
      CallersDistinct(k, d);
      OthersDropped(k.callers[d], p);
    }
  }

  /** do_fork: the child is a copy of the parent without its signals and its group, waiting for its map;
      nobody else's slot is touched, and no queue. */
  lemma ForkEffect(k: Kernel, parent: int, child: int, pid: int)
    requires Is(k, parent) && Is(k, child)
    ensures var r := Fork(k, parent, child, pid);
            && Is(r, child) && OnlyAt(k, r, child) && r.ready == k.ready && r.procPtr == k.procPtr && r.held == k.held
            && r.sigProcs == k.sigProcs && r.billPtr == k.billPtr && (forall d :: 0 <= d < |k.prio| && d != child ==> r.callers[d] == k.callers[d])
            && r.prio[child] == k.prio[parent] && r.getfrom[child] == k.getfrom[parent] && r.sendto[child] == k.sendto[parent]
            && (forall f :: f in r.flags[child] <==> f == NO_MAP || (f in k.flags[parent] && (f == SENDING || f == RECEIVING)))
            && r.pending[child] == {} && r.pendcount[child] == 0 && r.group[child] == 0 && r.pid[child] == pid
            && r.callers[child] == k.callers[parent]
  {
  }

  // ---------------------------------------------------------------- an interrupt over a run

  /** t's receive takes its interrupt: no message it would accept is at hand. */
  ghost predicate Takes(k: Kernel, op: Op, t: int)
    requires Is(k, t)
  {
    op.Trap? && op.f == RECEIVE && k.procPtr == t && k.prio[t] != PPRI_USER && NoneWanted(k, t, op.other) && Wanted(op.other, k.slots.hardware)
  }

  /** Interrupts and classes are as they were. */
  ghost predicate SameInterrupts(k: Kernel, k2: Kernel) {
    Shape(k) && Shape(k2) && k2.prio == k.prio && k2.intBlocked == k.intBlocked && k2.held == k.held && k2.slots == k.slots
  }

  /** What a trap does to interrupts: nothing, but for the one taken. */
  lemma TrapInterrupts(k: Kernel, f: Function, other: Source, addressOk: bool)
    requires Inv(k) && TrapAllowed(k, f, other)
    ensures Wired(k.flags, k.sendto) && CallersInTable(k)
    ensures var p, r := k.procPtr, SysCall(k, f, other, addressOk).0;
            if Takes(k, Trap(f, other, addressOk), p) && k.intBlocked[p] then r == k.(intBlocked := k.intBlocked[p := false])
            else SameInterrupts(k, r)
  {
    TrapEffect(k, f, other, addressOk);
    Running(k);
    var p, r := k.procPtr, SysCall(k, f, other, addressOk).0;
    hide Inv, SysCall, TrapAllowed, Sent, Waits, Receives, SentAndWaits, SendStatus, NoneWanted;
    if SysCall(k, f, other, addressOk).1 == OK {
      if f == RECEIVE {
        ReceiveInterrupts(k, r, p, other);
      } else if f == SEND {
        SentInterrupts(k, r, p, other.slot);
      } else {
        BothInterrupts(k, r, p, other.slot);
      }
    }
  }

  lemma SentInterrupts(k: Kernel, r: Kernel, p: int, d: int)
    requires Is(k, p) && Is(k, d) && Sent(k, r, p, d)
    ensures SameInterrupts(k, r)
  {
    hide Leaves, Joins;
    assert |r.ready| == NQ by { SentQueues(k, r, p, d); }
  }

  lemma SentQueues(k: Kernel, r: Kernel, p: int, d: int)
    requires Is(k, p) && Is(k, d) && Sent(k, r, p, d)
    ensures |r.ready| == NQ
  {
    hide Others, BestRuns;
  }

  lemma WaitsInterrupts(k: Kernel, r: Kernel, p: int, src: Source)
    requires Is(k, p) && Waits(k, r, p, src)
    ensures SameInterrupts(k, r) && r.sigProcs == k.sigProcs
  {
    hide Others, BestRuns;
  }

  lemma BothInterrupts(k: Kernel, r: Kernel, p: int, d: int)
    requires Is(k, p) && Is(k, d) && SentAndWaits(k, r, p, d)
    ensures SameInterrupts(k, r)
  {
    hide Sent, Waits;
    var m :| Is(m, p) && Sent(k, m, p, d) && Waits(m, r, p, From(d));
    SentInterrupts(k, m, p, d);
    WaitsInterrupts(m, r, p, From(d));
  }

  lemma ReceiveInterrupts(k: Kernel, r: Kernel, p: int, src: Source)
    requires Is(k, p) && k.flags[p] == {} && Receives(k, r, p, src)
    ensures if NoneWanted(k, p, src) && Wanted(src, k.slots.hardware) && k.intBlocked[p] then r == k.(intBlocked := k.intBlocked[p := false])
            else SameInterrupts(k, r)
  {
    hide Others, BestRuns, Waits, Wanted;
    if exists i :: FirstWanted(k, p, src, i) {
      var i :| FirstWanted(k, p, src, i) && Is(k, k.callers[p][i]) && Took(k, r, p, k.callers[p][i]);
      assert SameInterrupts(k, r);
    } else {
      NoneFirst(k, p, src);
      if !(k.intBlocked[p] && Wanted(src, k.slots.hardware)) {
        if p == k.slots.mm && src == ANY && k.sigProcs > 0 {
          var w, j :| Shape(w) && Waits(k, w, p, src) && FirstUntold(w, j) && Informed(w, r, j);
          WaitsInterrupts(k, w, p, src);
        } else {
          WaitsInterrupts(k, r, p, src);
        }
      }
    }
  }

  lemma NoneFirst(k: Kernel, p: int, src: Source)
    requires Is(k, p)
    ensures NoneWanted(k, p, src) <==> !exists i :: FirstWanted(k, p, src, i)
  {
    var i := FirstAccepted(k.callers[p], src);
    if i < |k.callers[p]| { assert FirstWanted(k, p, src, i); }
  }

  lemma CauseInterrupts(k: Kernel, p: int, sig: int)
    requires Core(k) && Is(k, p) && k.prio[p] == PPRI_USER
    ensures Wired(k.flags, k.sendto) && SameInterrupts(k, CauseSig(k, p, sig))
  {
    CauseIs(k, p, sig);
    if sig !in k.pending[p] && PENDING !in k.flags[p] {
      var h := HeldBack(k, p, sig);
      NotHardware(k, p);
      HeldBackKeeps(k, p, sig);
      BlockFrame(Recorded(k, p, sig), p, {PENDING, SIG_PENDING});
      assert SameInterrupts(k, h);
      hide HeldBack, Block, Core;
      if MMListens(h) { InformInterrupts(h); }
    }
  }

  lemma InformInterrupts(h: Kernel)
    requires Almost(h) && MMListens(h)
    ensures SameInterrupts(h, Inform(h))
  {
    InformIs(h);
    UnblockFrame(h, h.slots.mm, RECEIVING);
    hide Unblock, Inform, Almost;
  }

  lemma EndSigInterrupts(k: Kernel, p: int)
    requires Is(k, p)
    ensures SameInterrupts(k, EndSig(k, p).0)
  {
    if k.pendcount[p] > 0 { UnblockFrame(OneDone(k, p), p, SIG_PENDING); }
  }

  lemma QuietInterrupts(k: Kernel, op: Op)
    requires Inv(k) && Allowed(k, op) && (op.Quantum? || op.Signal? || op.SignalDone? || op.Mapped? || op.Grouping?)
    ensures SameInterrupts(k, Do(k, op))
  {
    InvReads(k);
    InvCore(k);
    hide Rescheduled, CauseSig, EndSig, NewMap, SetGroup, Inv, Core, Almost;
    match op
    case Quantum => RescheduledInterrupts(k);
    case Signal(p, sig) => CauseInterrupts(k, p, sig);
    case SignalDone(p) => EndSigInterrupts(k, p);
    case Mapped(p) => NewMapInterrupts(k, p);
    case Grouping(pid, group) => GroupInterrupts(k, pid, group);
  }

  lemma RescheduledInterrupts(k: Kernel)
    requires Shape(k) && Grouped(k.ready[USER_Q], k.group)
    ensures SameInterrupts(k, Rescheduled(k))
  {
  }

  lemma NewMapInterrupts(k: Kernel, p: int)
    requires Is(k, p)
    ensures SameInterrupts(k, NewMap(k, p))
  {
  }

  lemma GroupInterrupts(k: Kernel, pid: int, group: int)
    requires Shape(k)
    ensures SameInterrupts(k, SetGroup(k, pid, group).0)
  {
  }

  /** do_xit and do_fork leave tasks alone. */
  lemma ComingInterrupts(k: Kernel, op: Op, t: int)
    requires Inv(k) && Allowed(k, op) && (op.Died? || op.Forked?) && IsTask(k, t)
    ensures var r := Do(k, op); IsTask(r, t) && r.intBlocked[t] == k.intBlocked[t] && r.held == k.held
  {
    InvReads(k);
    InvCore(k);
    hide Inv, Core, Exit, Fork;
    if op.Died? { ExitInterrupts(k, op.p, t); } else { ForkInterrupts(k, op.parent, op.child, op.pid, t); }
  }

  lemma ExitInterrupts(k: Kernel, p: int, t: int)
    requires Lists(k) && Is(k, p) && k.prio[p] == PPRI_USER && IsTask(k, t)
    ensures var r := Exit(k, p); IsTask(r, t) && r.intBlocked == k.intBlocked && r.held == k.held
  {
    ExitFrame(k, p);
    hide LeaveQueue, Unready, Exit, ReadyOk, CallersOk, HeldOk;
    assert Is(Exit(k, p), t) by { ExitShape(k, p); }
  }

  lemma ExitShape(k: Kernel, p: int)
    requires Lists(k) && Is(k, p)
    ensures Shape(Exit(k, p))
  {
  }

  lemma ForkInterrupts(k: Kernel, parent: int, child: int, pid: int, t: int)
    requires Is(k, parent) && Is(k, child) && k.prio[child] == PPRI_NONE && IsTask(k, t)
    ensures var r := Fork(k, parent, child, pid); IsTask(r, t) && r.intBlocked[t] == k.intBlocked[t] && r.held == k.held
  {
  }

  /** An interrupt on record stays on record until its task takes it by a receive. */
  lemma RecordStays(k: Kernel, op: Op, t: int)
    requires Inv(k) && Allowed(k, op) && IsTask(k, t) && k.intBlocked[t] && !Takes(k, op, t)
    ensures IsTask(Do(k, op), t) && Do(k, op).intBlocked[t]
  {
    hide Inv, SysCall, Interrupt, Unhold, Rescheduled, CauseSig, EndSig, Exit, NewMap, Fork, SetGroup, HearsHardware,
         Heard, Wired, CallersInTable, Grouped, MMOwes;
    InvReads(k);
    RecordedNotWaiting(k, t);
    if op.Trap? {
      TrapInterrupts(k, op.f, op.other, op.addressOk);
    } else if op.Int? {
      IntEffect(k, op);
    } else if op.Flush? {
      FlushEffect(k);
      assert ReleasedTask(k, Do(k, op), t);
    } else if op.Died? || op.Forked? {
      ComingInterrupts(k, op, t);
    } else {
      QuietInterrupts(k, op);
    }
  }

  lemma RecordedNotWaiting(k: Kernel, t: int)
    requires Inv(k) && IsTask(k, t) && k.intBlocked[t]
    ensures !HearsHardware(k, t)
  {
  }

  lemma IntEffect(k: Kernel, op: Op)
    requires Inv(k) && Allowed(k, op) && op.Int?
    ensures var t, r := op.task, Do(k, op);
            && IsTask(k, t) && Do(k, op) == Interrupt(k, t, op.competing)
            && if op.competing then
                 r == k.(intHeld := k.intHeld[t := true], held := if t in k.held then k.held else k.held + [t])
               else if HearsHardware(k, t) then Delivered(k, r, t)
               else r == k.(intBlocked := k.intBlocked[t := true])
  {
    InvCore(k);
    InterruptEffect(k, op.task, op.competing);
    hide Inv, Core, Interrupt;
  }

  lemma FlushEffect(k: Kernel)
    requires Inv(k) && Allowed(k, Flush)
    ensures forall i :: 0 <= i < |k.held| ==> 0 <= k.held[i] < |k.prio|
    ensures Released(k, Do(k, Flush))
  {
    InvCore(k);
    UnholdEffect(k);
    hide Inv, Core, Unhold, Released;
  }

  /** An interrupt held stays held until unhold. */
  lemma HeldStays(k: Kernel, op: Op, t: int)
    requires Inv(k) && Allowed(k, op) && IsTask(k, t) && t in k.held && op != Flush
    ensures IsTask(Do(k, op), t) && t in Do(k, op).held
  {
    hide Inv, SysCall, Interrupt, Unhold, Rescheduled, CauseSig, EndSig, Exit, NewMap, Fork, SetGroup, HearsHardware,
         Wired, CallersInTable, Grouped, MMOwes, Takes;
    InvReads(k);
    if op.Trap? {
      TrapInterrupts(k, op.f, op.other, op.addressOk);
    } else if op.Int? {
      IntEffect(k, op);
    } else if op.Died? || op.Forked? {
      ComingInterrupts(k, op, t);
    } else {
      QuietInterrupts(k, op);
    }
  }

  /** In the run t does not take its interrupt. */
  ghost predicate Untaken(b: Books, ops: seq<Op>, t: int)
    requires Balanced(b) && PermittedRun(b, ops)
    decreases |ops|
  {
    ops == [] ||
    (NextBalanced(b, ops[0]); Is(b.k, t) && !Takes(b.k, ops[0], t) && Untaken(Next(b, ops[0]), ops[1..], t))
  }

  /** Over a run: an interrupt on record stays on record until its task takes it by a receive. */
  lemma {:induction false} OnRecordUntilTaken(b: Books, ops: seq<Op>, t: int)
    requires Balanced(b) && PermittedRun(b, ops) && IsTask(b.k, t) && b.k.intBlocked[t] && Untaken(b, ops, t)
    ensures IsTask(Run(b, ops).k, t) && Run(b, ops).k.intBlocked[t]
    decreases |ops|
  {
    if ops != [] {
      NextBalanced(b, ops[0]);
      PermittedAllowed(b, ops[0]);
      RecordStays(b.k, ops[0], t);
      hide Balanced, Permitted, Do, Takes;
      OnRecordUntilTaken(Next(b, ops[0]), ops[1..], t);
    }
  }

  /** And one held stays held until unhold repeats it. */
  lemma {:induction false} HeldUntilFlush(b: Books, ops: seq<Op>, t: int)
    requires Balanced(b) && PermittedRun(b, ops) && IsTask(b.k, t) && t in b.k.held && Flush !in ops
    ensures IsTask(Run(b, ops).k, t) && t in Run(b, ops).k.held
    decreases |ops|
  {
    if ops != [] {
      assert ops[0] in ops && forall op :: op in ops[1..] ==> op in ops;
      NextBalanced(b, ops[0]);
      PermittedAllowed(b, ops[0]);
      HeldStays(b.k, ops[0], t);
      hide Balanced, Permitted, Do;
      HeldUntilFlush(Next(b, ops[0]), ops[1..], t);
    }
  }

  // ---------------------------------------------------------------- a message over a run

  /** Whoever is sending, but c, goes on sending to whom it was. */
  ghost predicate GoOnSending(k: Kernel, k2: Kernel, c: int) {
    && |k2.flags| == |k.flags| == |k.sendto| == |k2.sendto|
    && forall x :: 0 <= x < |k.flags| && x != c && SENDING in k.flags[x] ==> SENDING in k2.flags[x] && k2.sendto[x] == k.sendto[x]
  }

  /** The process c is sending to takes its message: it is the first it wants. */
  ghost predicate TakesFrom(k: Kernel, op: Op, c: int)
    requires Is(k, c)
  {
    && op.Trap? && op.f == RECEIVE && k.procPtr == k.sendto[c] && Is(k, k.procPtr)
    && exists i :: FirstWanted(k, k.procPtr, op.other, i) && k.callers[k.procPtr][i] == c
  }

  lemma SentGoOn(k: Kernel, r: Kernel, p: int, d: int)
    requires Is(k, p) && Is(k, d) && k.flags[p] == {} && Sent(k, r, p, d)
    ensures GoOnSending(k, r, -1)
  {
    hide Leaves, Joins;
  }

  lemma WaitsGoOn(k: Kernel, r: Kernel, p: int, src: Source)
    requires Is(k, p) && Waits(k, r, p, src)
    ensures GoOnSending(k, r, -1)
  {
    hide Leaves, Joins;
  }

  lemma BothGoOn(k: Kernel, r: Kernel, p: int, d: int)
    requires Is(k, p) && Is(k, d) && k.flags[p] == {} && SentAndWaits(k, r, p, d)
    ensures GoOnSending(k, r, -1)
  {
    hide Sent, Waits;
    var m :| Is(m, p) && Sent(k, m, p, d) && Waits(m, r, p, From(d));
    SentGoOn(k, m, p, d);
    WaitsGoOn(m, r, p, From(d));
  }

  lemma ReceiveGoesOn(k: Kernel, r: Kernel, p: int, src: Source, c: int)
    requires Core(k) && Is(k, p) && Is(k, c) && SENDING in k.flags[c] && Receives(k, r, p, src)
    requires k.sendto[c] != p || !exists i :: FirstWanted(k, p, src, i) && k.callers[p][i] == c
    ensures |r.flags| == |r.sendto| == |k.flags| && SENDING in r.flags[c] && r.sendto[c] == k.sendto[c]
  {
    hide Core, Others, BestRuns, Waits, Wanted, Leaves, Joins;
    if SENDING !in k.flags[p] && exists i :: FirstWanted(k, p, src, i) {
      var i :| FirstWanted(k, p, src, i) && Is(k, k.callers[p][i]) && Took(k, r, p, k.callers[p][i]);
      CallerSendsTo(k, p, i);
    } else if SENDING !in k.flags[p] && k.intBlocked[p] && Wanted(src, k.slots.hardware) {
    } else if p == k.slots.mm && src == ANY && k.sigProcs > 0 {
      var w, j :| Shape(w) && Waits(k, w, p, src) && FirstUntold(w, j) && Informed(w, r, j);
      WaitsGoOn(k, w, p, src);
    } else {
      WaitsGoOn(k, r, p, src);
    }
  }

  lemma CallerSendsTo(k: Kernel, p: int, i: nat)
    requires Core(k) && Is(k, p) && i < |k.callers[p]|
    ensures Is(k, k.callers[p][i]) && k.sendto[k.callers[p][i]] == p
  {
    CallerIsSending(k, p, i);
    assert k.callers[p][i] in k.callers[p];
  }

  lemma TrapGoesOn(k: Kernel, f: Function, other: Source, addressOk: bool, c: int)
    requires Inv(k) && TrapAllowed(k, f, other) && Is(k, c) && SENDING in k.flags[c]
    requires !TakesFrom(k, Trap(f, other, addressOk), c)
    ensures Wired(k.flags, k.sendto) && CallersInTable(k)
    ensures var r := SysCall(k, f, other, addressOk).0;
            |r.flags| == |r.sendto| == |k.flags| && SENDING in r.flags[c] && r.sendto[c] == k.sendto[c]
  {
    TrapEffect(k, f, other, addressOk);
    Running(k);
    InvCore(k);
    var p, r := k.procPtr, SysCall(k, f, other, addressOk).0;
    hide Inv, Core, SysCall, TrapStatus, TrapAllowed, Sent, Waits, Receives, SentAndWaits, FirstWanted;
    if SysCall(k, f, other, addressOk).1 == OK {
      if f == RECEIVE {
        ReceiveGoesOn(k, r, p, other, c);
      } else if f == SEND {
        SentGoOn(k, r, p, other.slot);
      } else {
        BothGoOn(k, r, p, other.slot);
      }
    }
  }

  lemma InterruptGoesOn(k: Kernel, op: Op)
    requires Inv(k) && Allowed(k, op) && op.Int?
    ensures GoOnSending(k, Do(k, op), -1)
  {
    IntEffect(k, op);
    InvCore(k);
    InterruptEffect(k, op.task, op.competing);
    hide Inv, Core, Interrupt, Do;
  }

  lemma FlushGoesOn(k: Kernel)
    requires Inv(k) && Allowed(k, Flush)
    ensures GoOnSending(k, Do(k, Flush), -1)
  {
    FlushEffect(k);
    var r := Do(k, Flush);
    hide Inv, Do, Heard;
    forall x | 0 <= x < |k.flags| && SENDING in k.flags[x] ensures SENDING in r.flags[x] && r.sendto[x] == k.sendto[x] {
      assert ReleasedTask(k, r, x);
    }
  }

  lemma SignalGoesOn(k: Kernel, p: int, sig: int)
    requires Core(k) && Is(k, p) && k.prio[p] == PPRI_USER
    ensures Wired(k.flags, k.sendto) && GoOnSending(k, CauseSig(k, p, sig), -1)
  {
    CauseIs(k, p, sig);
    if sig !in k.pending[p] && PENDING !in k.flags[p] {
      var h := HeldBack(k, p, sig);
      NotHardware(k, p);
      HeldBackKeeps(k, p, sig);
      BlockFrame(Recorded(k, p, sig), p, {PENDING, SIG_PENDING});
      assert GoOnSending(k, h, -1);
      hide HeldBack, Block, Core;
      if MMListens(h) { InformGoesOn(h); }
    }
  }

  lemma InformGoesOn(h: Kernel)
    requires Almost(h) && MMListens(h)
    ensures GoOnSending(h, Inform(h), -1)
  {
    InformIs(h);
    UnblockFrame(h, h.slots.mm, RECEIVING);
    hide Unblock, Inform, Almost;
  }

  lemma EndSigGoesOn(k: Kernel, p: int)
    requires Is(k, p)
    ensures GoOnSending(k, EndSig(k, p).0, -1)
  {
    if k.pendcount[p] > 0 { UnblockFrame(OneDone(k, p), p, SIG_PENDING); }
    hide Unblock;
  }

  lemma RestGoesOn(k: Kernel, op: Op)
    requires Inv(k) && Allowed(k, op) && (op.Quantum? || op.Mapped? || op.Forked? || op.Grouping?)
    ensures GoOnSending(k, Do(k, op), -1)
  {
    hide Unblock, Inv, Grouped;
    InvReads(k);
    if op.Mapped? { UnblockFrame(k, op.p, NO_MAP); }
    if op.Forked? { ChildIsEmpty(k, op); }
  }

  lemma ChildIsEmpty(k: Kernel, op: Op)
    requires Inv(k) && Allowed(k, op) && op.Forked?
    ensures k.flags[op.child] == {}
  {
    assert LocalAt(k, op.child);
  }

  lemma OtherGoesOn(k: Kernel, op: Op)
    requires Inv(k) && Allowed(k, op) && !op.Trap?
    ensures GoOnSending(k, Do(k, op), if op.Died? then op.p else -1)
  {
    InvReads(k);
    InvCore(k);
    hide Inv, Core, Almost, CauseSig, EndSig, Exit, GoOnSending;
    match op
    case Int(t, competing) => InterruptGoesOn(k, op);
    case Flush => FlushGoesOn(k);
    case Signal(p, sig) => SignalGoesOn(k, p, sig);
    case SignalDone(p) => EndSigGoesOn(k, p);
    case Died(p) => ExitGoesOn(k, p);
    case _ => RestGoesOn(k, op);
  }

  lemma ExitGoesOn(k: Kernel, p: int)
    requires Lists(k) && Is(k, p)
    ensures GoOnSending(k, Exit(k, p), p)
  {
    ExitFrame(k, p);
    hide Exit, LeaveQueue, Unready;
  }

  /** A message that was accepted stays with its sender until its destination's receive takes it, or the
      sender dies. */
  lemma SenderStays(k: Kernel, op: Op, c: int)
    requires Inv(k) && Allowed(k, op) && Is(k, c) && SENDING in k.flags[c] && !TakesFrom(k, op, c) && op != Died(c)
    ensures var r := Do(k, op);
            && Is(r, c) && SENDING in r.flags[c] && r.sendto[c] == k.sendto[c]
            && 0 <= r.sendto[c] < |r.callers| && c in r.callers[r.sendto[c]]
  {
    InvReads(k);
    OpKeeps(k, op);
    if op.Trap? {
      TrapGoesOn(k, op.f, op.other, op.addressOk, c);
      assert op == Trap(op.f, op.other, op.addressOk);
    } else {
      OtherGoesOn(k, op);
    }
    OpOwes(k, op, c);
    var r := Do(k, op);
    assert Is(r, c) && SENDING in r.flags[c] && r.sendto[c] == k.sendto[c] by {
      assert Do(k, op) == if op.Trap? then SysCall(k, op.f, op.other, op.addressOk).0 else Do(k, op);
      hide Inv, SysCall, TakesFrom;
    }
    SenderInQueue(r, c);
  }

  lemma SenderInQueue(k: Kernel, c: int)
    requires Inv(k) && Is(k, c) && SENDING in k.flags[c]
    ensures 0 <= k.sendto[c] < |k.callers| && c in k.callers[k.sendto[c]]
  {
    assert Sending(k.flags, c);
  }

  /** In the run nobody takes c's message, and c lives. */
  ghost predicate LeftSending(b: Books, ops: seq<Op>, c: int)
    requires Balanced(b) && PermittedRun(b, ops)
    decreases |ops|
  {
    ops == [] ||
    (NextBalanced(b, ops[0]);
     Is(b.k, c) && !TakesFrom(b.k, ops[0], c) && ops[0] != Died(c) && LeftSending(Next(b, ops[0]), ops[1..], c))
  }

  /** Over a run: a sender stays in its destination's queue until that takes its message, or it dies. */
  lemma {:induction false} QueuedUntilTaken(b: Books, ops: seq<Op>, c: int)
    requires Balanced(b) && PermittedRun(b, ops) && Is(b.k, c) && SENDING in b.k.flags[c] && LeftSending(b, ops, c)
    ensures var r := Run(b, ops).k;
            && Is(r, c) && SENDING in r.flags[c] && r.sendto[c] == b.k.sendto[c]
            && 0 <= r.sendto[c] < |r.callers| && c in r.callers[r.sendto[c]]
    decreases |ops|
  {
    if ops == [] {
      SenderInQueue(b.k, c);
    } else {
      NextBalanced(b, ops[0]);
      PermittedAllowed(b, ops[0]);
      SenderStays(b.k, ops[0], c);
      hide Balanced, Permitted, Do, TakesFrom;
      QueuedUntilTaken(Next(b, ops[0]), ops[1..], c);
    }
  }
}
