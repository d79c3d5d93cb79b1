/** Signals, interrupts, and processes coming and going. */
module KernelSignals {
  import opened Chains
  import opened KernelSpec
  import opened KernelInvariant
  import opened KernelSteps
  import opened SendGraph
  import opened UserQueue

  // ---------------------------------------------------------------- cause_sig

  /** cause_sig before it looks at MM: the signal is on record and counted. */
  ghost function Recorded(k: Kernel, p: int, sig: int): Kernel
    requires Is(k, p)
  {
    k.(pending := k.pending[p := k.pending[p] + {sig}], pendcount := k.pendcount[p := k.pendcount[p] + 1])
  }

  /** Counting signals touches no list. */
  lemma CountingLists(k: Kernel, k2: Kernel)
    requires Lists(k) && Shape(k2) && k2 == k.(pending := k2.pending, pendcount := k2.pendcount)
    ensures Lists(k2)
    ensures NoMissedMessage(k) && NoMissedInterrupt(k) ==> NoMissedMessage(k2) && NoMissedInterrupt(k2)
    ensures NoMissedSignal(k) ==> NoMissedSignal(k2)
  {
  }

  lemma RecordMoreKeeps(k: Kernel, p: int, sig: int)
    requires Core(k) && Is(k, p) && PENDING in k.flags[p] && sig !in k.pending[p]
    ensures Core(Recorded(k, p, sig))
  {
    hide ReadyOk, CallersOk, Acyclic, HeldOk, Roles, NoMissedMessage, NoMissedInterrupt, NoMissedSignal, CountPending;
    var k2 := Recorded(k, p, sig);
    CountingLists(k, k2);
    assert LocalAt(k, p) && LocalAt(k2, p);
    LocalsKeep(k, k2, p);
    Together(k2);
  }

  /** The first signal: the process is held back until MM has dealt with all of them. */
  ghost function HeldBack(k: Kernel, p: int, sig: int): Kernel
    requires Is(k, p)
  {
    Block(Recorded(k, p, sig), p, {PENDING, SIG_PENDING}).(sigProcs := k.sigProcs + 1)
  }

  lemma HeldBackLists(k: Kernel, p: int, sig: int)
    requires Lists(k) && Is(k, p)
    ensures Lists(HeldBack(k, p, sig))
  {
    var k1, k2 := Recorded(k, p, sig), HeldBack(k, p, sig);
    BlockFrame(k1, p, {PENDING, SIG_PENDING});
    BlockReady(k1, p, {PENDING, SIG_PENDING});
    assert SameSenders(k.flags, k2.flags, {});
    CallersSame(k.flags, k.sendto, k.callers, k2.flags);
    AcyclicFewer(k.flags, k.sendto, k2.flags, k2.sendto);
  }

  lemma HeldBackMissesNone(k: Kernel, p: int, sig: int)
    requires Core(k) && Is(k, p) && Lists(HeldBack(k, p, sig))
    ensures NoMissedMessage(HeldBack(k, p, sig)) && NoMissedInterrupt(HeldBack(k, p, sig))
  {
    hide ReadyOk, CallersOk, Acyclic, HeldOk, Roles, LocalOk;
    BlockFrame(Recorded(k, p, sig), p, {PENDING, SIG_PENDING});
  }

  lemma LocalHeldBack(k: Kernel, p: int, sig: int)
    requires Is(k, p) && LocalAt(k, p) && k.prio[p] == PPRI_USER && p != k.slots.hardware
    requires sig !in k.pending[p] && PENDING !in k.flags[p]
    ensures LocalOk(k.prio[p], k.flags[p] + {PENDING, SIG_PENDING}, k.getfrom[p], k.sendto[p], k.pending[p] + {sig},
                    k.pendcount[p] + 1, k.group[p], false)
  {
  }

  lemma HeldBackKeeps(k: Kernel, p: int, sig: int)
    requires Core(k) && Is(k, p) && k.prio[p] == PPRI_USER && p != k.slots.hardware
    requires PENDING !in k.flags[p] && sig !in k.pending[p]
    ensures Almost(HeldBack(k, p, sig)) && HeldBack(k, p, sig).sigProcs > 0
  {
    hide LocalOk, ReadyOk, CallersOk, Acyclic, HeldOk, Roles, NoMissedMessage, NoMissedInterrupt, NoMissedSignal, CountPending;
    var k2 := HeldBack(k, p, sig);
    BlockFrame(Recorded(k, p, sig), p, {PENDING, SIG_PENDING});
    HeldBackLists(k, p, sig);
    HeldBackMissesNone(k, p, sig);
    LocalHeldBack(k, p, sig);
    CountUpdate(k.flags, p, k.flags[p] + {PENDING, SIG_PENDING});
    hide Block;
    LocalsKeep(k, k2, p);
    Together(k2);
  }

  lemma CauseIs(k: Kernel, p: int, sig: int)
    requires Is(k, p) && Wired(k.flags, k.sendto)
    ensures var r := CauseSig(k, p, sig);
            if sig in k.pending[p] then r == k
            else if PENDING in k.flags[p] then r == Recorded(k, p, sig)
            else var h := HeldBack(k, p, sig);
                 Shape(h) && Wired(h.flags, h.sendto) && r == if MMListens(h) then Inform(h) else h
  {
  }

  lemma CauseSigKeeps(k: Kernel, p: int, sig: int)
    requires Core(k) && Is(k, p) && k.prio[p] == PPRI_USER
    ensures Core(CauseSig(k, p, sig))
    ensures Current(k) ==> Current(CauseSig(k, p, sig))
  {
    CauseIs(k, p, sig);
    if sig in k.pending[p] {
    } else if PENDING in k.flags[p] {
      RecordMoreKeeps(k, p, sig);
    } else {
      HeldBackKeeps(k, p, sig);
      if Current(k) { UnreadyCurrent(Recorded(k, p, sig), p); }
      var h := HeldBack(k, p, sig);
      hide HeldBack, Almost;
      if MMListens(h) { InformKeeps(h); }
    }
  }

  // ---------------------------------------------------------------- do_endsig

  ghost function OneDone(k: Kernel, p: int): Kernel
    requires Is(k, p) && k.pendcount[p] > 0
  {
    k.(pendcount := k.pendcount[p := k.pendcount[p] - 1])
  }

  /** p_pendcount counts more signals than are pending. */
  ghost predicate MMOwes(k: Kernel, p: int)
    requires Is(k, p)
  {
    k.pendcount[p] > |k.pending[p]|
  }

  lemma EndSigKeeps(k: Kernel, p: int)
    requires Core(k) && Is(k, p) && (k.prio[p] == PPRI_USER || k.prio[p] == PPRI_NONE)
    requires k.pendcount[p] == 0 || MMOwes(k, p)
    ensures Core(EndSig(k, p).0)
  {
    assert LocalAt(k, p);
    if k.prio[p] == PPRI_USER && k.pendcount[p] > 0 {
      var k1 := OneDone(k, p);
      if k1.pendcount[p] > 0 {
        OneDoneKeeps(k, p);
      } else {
        LastDoneKeeps(k, p);
      }
    }
  }

  lemma OneDoneKeeps(k: Kernel, p: int)
    requires Core(k) && Is(k, p) && k.pendcount[p] > 1 && MMOwes(k, p)
    ensures Core(OneDone(k, p))
  {
    hide ReadyOk, CallersOk, Acyclic, HeldOk, Roles, NoMissedMessage, NoMissedInterrupt, NoMissedSignal, CountPending;
    var k2 := OneDone(k, p);
    CountingLists(k, k2);
    assert LocalAt(k, p) && LocalAt(k2, p);
    LocalsKeep(k, k2, p);
    Together(k2);
  }

  lemma FreedLists(k: Kernel, p: int)
    requires Core(k) && Is(k, p) && k.prio[p] == PPRI_USER && p != k.slots.hardware && k.pendcount[p] == 1
    ensures var freed := Unblock(k, p, SIG_PENDING);
            Lists(freed) && NoMissedMessage(freed) && NoMissedInterrupt(freed) && NoMissedSignal(freed)
  {
    var freed := Unblock(k, p, SIG_PENDING);
    assert LocalAt(k, p);
    UnblockFrame(k, p, SIG_PENDING);
    UnblockReady(k, p, SIG_PENDING);
    hide Unblock;
    FlagsLists(k, freed, p, k.flags[p] - {SIG_PENDING});
    FlagsMissNone(k, freed, p, k.flags[p] - {SIG_PENDING});
  }

  /** The last signal is done: counting it and letting the process go commute. */
  lemma LastDoneKeeps(k: Kernel, p: int)
    requires Core(k) && Is(k, p) && k.prio[p] == PPRI_USER && p != k.slots.hardware && k.pendcount[p] == 1 && MMOwes(k, p)
    ensures Core(Unblock(OneDone(k, p), p, SIG_PENDING))
  {
    hide LocalOk, ReadyOk, CallersOk, Acyclic, HeldOk, Roles, NoMissedMessage, NoMissedInterrupt, NoMissedSignal, CountPending;
    var freed, k2 := Unblock(k, p, SIG_PENDING), Unblock(OneDone(k, p), p, SIG_PENDING);
    FreedLists(k, p);
    LocalLastDone(k, p);
    UnblockFrame(OneDone(k, p), p, SIG_PENDING);
    assert k2 == freed.(pendcount := k2.pendcount);
    hide Unblock;
    CountingLists(freed, k2);
    CountUpdate(k.flags, p, k.flags[p] - {SIG_PENDING});
    LocalsKeep(k, k2, p);
    Together(k2);
  }

  lemma LocalLastDone(k: Kernel, p: int)
    requires Is(k, p) && LocalAt(k, p) && k.pendcount[p] == 1 && MMOwes(k, p)
    ensures LocalOk(k.prio[p], k.flags[p] - {SIG_PENDING}, k.getfrom[p], k.sendto[p], k.pending[p], 0, k.group[p],
                    p == k.slots.hardware)
  {
  }

  /** do_endsig miscounts exactly when MM reports the end of a signal it has not been told of. */
  lemma EndSigExactly(k: Kernel, p: int)
    requires Core(k) && Is(k, p) && (k.prio[p] == PPRI_USER || k.prio[p] == PPRI_NONE)
    ensures Core(EndSig(k, p).0) <==> k.pendcount[p] == 0 || MMOwes(k, p)
  {
    assert LocalAt(k, p);
    if k.pendcount[p] == 0 || MMOwes(k, p) {
      EndSigKeeps(k, p);
    } else {
      var k2 := EndSig(k, p).0;
      if k.pendcount[p] == 1 { UnblockFrame(OneDone(k, p), p, SIG_PENDING); }
      assert k2.pending[p] == k.pending[p] && k2.pendcount[p] == k.pendcount[p] - 1;
      assert !LocalAt(k2, p);
    }
  }

  // ---------------------------------------------------------------- interrupts

  ghost predicate IsTask(k: Kernel, t: int) {
    Is(k, t) && k.prio[t] == PPRI_TASK && t != k.slots.hardware
  }

  /** The in-line ready() of interrupt is ready() itself: a task carries no other flags. */
  lemma InterruptIs(k: Kernel, t: int)
    requires Core(k) && IsTask(k, t) && WaitsFor(k.flags[t], k.getfrom[t], k.slots.hardware)
    ensures Interrupt(k, t, false) == Unblock(k, t, RECEIVING).(intBlocked := k.intBlocked[t := false])
  {
    assert LocalAt(k, t);
    assert k.flags[t] - {RECEIVING} == {};
  }

  lemma IntBlockedKeeps(k: Kernel, t: int, b: bool)
    requires Core(k) && Is(k, t) && (b ==> !WaitsFor(k.flags[t], k.getfrom[t], k.slots.hardware))
    ensures Core(k.(intBlocked := k.intBlocked[t := b]))
  {
    hide ReadyOk, CallersOk, Acyclic, LocalOk, CountPending;
    var k2 := k.(intBlocked := k.intBlocked[t := b]);
    assert forall j :: 0 <= j < |k.prio| ==> LocalAt(k, j) == LocalAt(k2, j);
  }

  lemma HeldMoreKeeps(k: Kernel, t: int)
    requires Core(k) && IsTask(k, t) && !k.intHeld[t]
    ensures Core(k.(intHeld := k.intHeld[t := true], held := k.held + [t]))
  {
    var k2 := k.(intHeld := k.intHeld[t := true], held := k.held + [t]);
    assert t !in k.held;
    assert forall p :: p in k2.held <==> p in k.held || p == t;
    assert HeldOk(k2);
    hide ReadyOk, CallersOk, Acyclic, LocalOk, CountPending, HeldOk;
    assert forall j :: 0 <= j < |k.prio| ==> LocalAt(k, j) == LocalAt(k2, j);
  }

  lemma InterruptKeeps(k: Kernel, t: int, competing: bool)
    requires Core(k) && IsTask(k, t)
    ensures Core(Interrupt(k, t, competing))
    ensures Current(k) ==> Current(Interrupt(k, t, competing))
  {
    if competing {
      if !k.intHeld[t] { HeldMoreKeeps(k, t); }
    } else if WaitsFor(k.flags[t], k.getfrom[t], k.slots.hardware) {
      InterruptIs(k, t);
      DeliverKeeps(k, t);
      if Current(k) { DeliverCurrent(k, t); }
      NotWaiting(k, t);
      IntBlockedKeeps(Unblock(k, t, RECEIVING), t, false);
    } else {
      IntBlockedKeeps(k, t, true);
    }
  }

  lemma NotWaiting(k: Kernel, t: int)
    requires Is(k, t)
    ensures var k2 := Unblock(k, t, RECEIVING); Is(k2, t) && k2.intBlocked == k.intBlocked
  {
  }

  lemma DeliverCurrent(k: Kernel, p: int)
    requires Is(k, p) && Current(k)
    requires k.ready[TASK_Q] != [] || QueueOf(k.prio[p]) == TASK_Q || k.ready[SERVER_Q] != []
    ensures Current(Unblock(k, p, RECEIVING))
  {
  }

  lemma HeldFewer(k: Kernel)
    requires Core(k) && k.held != []
    ensures IsTask(k, k.held[0])
    ensures Core(k.(held := k.held[1..], intHeld := k.intHeld[k.held[0] := false]))
  {
    var t := k.held[0];
    assert t in k.held;
    var k2 := k.(held := k.held[1..], intHeld := k.intHeld[t := false]);
    assert k.held == [t] + k2.held;
    assert t !in k2.held;
    assert forall p :: p in k.held <==> p in k2.held || p == t;
    assert HeldOk(k2);
    hide ReadyOk, CallersOk, Acyclic, LocalOk, CountPending, HeldOk;
    assert forall j :: 0 <= j < |k.prio| ==> LocalAt(k, j) == LocalAt(k2, j);
  }

  lemma ReleaseIs(k: Kernel)
    requires Core(k) && k.held != []
    ensures Is(k, k.held[0]) && ReleaseHeld(k).held == k.held[1..] && |ReleaseHeld(k).prio| == |k.prio|
    ensures Core(ReleaseHeld(k)) && (Current(k) ==> Current(ReleaseHeld(k)))
  {
    HeldFewer(k);
    var k1 := k.(held := k.held[1..], intHeld := k.intHeld[k.held[0] := false]);
    InterruptKeeps(k1, k.held[0], false);
  }

  /** unhold empties the held queue and keeps the invariant. */
  lemma {:induction false} UnholdKeeps(k: Kernel)
    requires Core(k)
    ensures forall i :: 0 <= i < |k.held| ==> 0 <= k.held[i] < |k.prio|
    ensures Core(Unhold(k)) && Unhold(k).held == []
    ensures Current(k) ==> Current(Unhold(k))
    decreases |k.held|
  {
    forall i | 0 <= i < |k.held| ensures 0 <= k.held[i] < |k.prio| { assert k.held[i] in k.held; }
    if k.held != [] {
      ReleaseIs(k);
      UnholdKeeps(ReleaseHeld(k));
    }
  }

  // ---------------------------------------------------------------- do_xit, do_newmap, do_fork

  lemma ExitCallers(k: Kernel, p: int, flags': seq<set<Flag>>)
    requires Lists(k) && Is(k, p) && flags' == k.flags[p := {}]
    ensures var k1 := LeaveQueue(k, p);
            k1 == k.(callers := k1.callers) && CallersOk(flags', k.sendto, k1.callers)
  {
    if SENDING in k.flags[p] {
      assert Sending(k.flags, p);
      var d := k.sendto[p];
      var i := IndexOf(k.callers[d], p);
      assert p in k.callers[d];
      assert SameSenders(k.flags, flags', {p});
      CallersDequeue(k.flags, k.sendto, k.callers, flags', d, i);
    } else {
      assert SameSenders(k.flags, flags', {});
      CallersSame(k.flags, k.sendto, k.callers, flags');
    }
  }

  lemma ExitReady(k: Kernel, p: int)
    requires Lists(k) && Is(k, p)
    ensures var k1 := if k.flags[p] == {} then Unready(k, p) else k;
            ReadyOk(k.prio[p := PPRI_NONE], k.flags[p := {}], k1.ready, k.slots.hardware)
  {
    var prio, flags := k.prio[p := PPRI_NONE], k.flags[p := {}];
    var ready := if k.flags[p] == {} then Unready(k, p).ready else k.ready;
    if k.flags[p] == {} {
      UnreadyTakes(k, p);
    } else {
      NotQueued(k.prio, k.flags, k.ready, k.slots.hardware, p);
    }
    hide Unready;
    ReadyLess(k.prio, k.flags, k.ready, k.slots.hardware, p, prio, flags, ready);
  }

  lemma ExitFrame(k: Kernel, p: int)
    requires Lists(k) && Is(k, p)
    ensures var k1, r := if k.flags[p] == {} then Unready(k, p) else k, Exit(k, p);
            r == k.(ready := k1.ready, procPtr := k1.procPtr, billPtr := k1.billPtr, callers := LeaveQueue(k, p).callers,
                    sigProcs := if PENDING in k.flags[p] then k.sigProcs - 1 else k.sigProcs,
                    pending := k.pending[p := {}], pendcount := k.pendcount[p := 0],
                    flags := k.flags[p := {}], prio := k.prio[p := PPRI_NONE])
  {
  }

  lemma ExitLists(k: Kernel, p: int)
    requires Lists(k) && Is(k, p) && k.prio[p] == PPRI_USER
    ensures Lists(Exit(k, p))
  {
    ExitFrame(k, p);
    ExitCallers(k, p, k.flags[p := {}]);
    ExitReady(k, p);
    AcyclicFewer(k.flags, k.sendto, k.flags[p := {}], k.sendto);
    hide ReadyOk, CallersOk, Acyclic, Exit;
  }

  lemma ExitKeeps(k: Kernel, p: int)
    requires Core(k) && Is(k, p) && k.prio[p] == PPRI_USER
    ensures Core(Exit(k, p)) && (Current(k) ==> Current(Exit(k, p)))
  {
    hide LocalOk, ReadyOk, CallersOk, Acyclic, HeldOk, CountPending;
    var k2 := Exit(k, p);
    ExitFrame(k, p);
    ExitLists(k, p);
    LocalDead(k, p);
    CountUpdate(k.flags, p, {});
    if Current(k) { UnreadyCurrent(k, p); }
    hide Exit, Unready;
    LocalsKeep(k, k2, p);
    ExitMissesNone(k, p);
    Together(k2);
  }

  lemma ExitMissesNone(k: Kernel, p: int)
    requires Core(k) && Is(k, p) && k.prio[p] == PPRI_USER && Lists(Exit(k, p))
    ensures var k2 := Exit(k, p); NoMissedMessage(k2) && NoMissedInterrupt(k2) && NoMissedSignal(k2)
  {
    ExitFrame(k, p);
    hide LocalOk, ReadyOk, CallersOk, Acyclic, HeldOk, CountPending, Exit;
  }

  lemma LocalDead(k: Kernel, p: int)
    requires Is(k, p) && LocalAt(k, p)
    ensures LocalOk(PPRI_NONE, {}, k.getfrom[p], k.sendto[p], {}, 0, k.group[p], p == k.slots.hardware)
  {
  }

  lemma NewMapKeeps(k: Kernel, p: int)
    requires Core(k) && Is(k, p)
    ensures Core(NewMap(k, p))
  {
    if k.flags[p] != {} {
      FlaggedIsReal(k, p);
      UnblockFrame(k, p, NO_MAP);
      UnblockReady(k, p, NO_MAP);
      LocalClear(k, p, NO_MAP);
      FlagsKeep(k, Unblock(k, p, NO_MAP), p, k.flags[p] - {NO_MAP});
    }
  }

  // ---------------------------------------------------------------- do_setGroup, sched

  lemma SetGroupKeeps(k: Kernel, pid: int, group: int)
    requires Core(k)
    ensures Core(SetGroup(k, pid, group).0) && (Current(k) ==> Current(SetGroup(k, pid, group).0))
  {
    var i := FindPid(k.pid, pid);
    if 0 <= group <= 2 && i < |k.pid| {
      var k2 := k.(group := k.group[i := group]);
      assert LocalAt(k, i) && LocalAt(k2, i);
      hide LocalOk, ReadyOk, CallersOk, Acyclic, CountPending;
      LocalsKeep(k, k2, i);
      Together(k2);
    }
  }

  lemma UserQueueGrouped(k: Kernel)
    requires Core(k)
    ensures Grouped(k.ready[USER_Q], k.group)
  {
    forall i | 0 <= i < |k.ready[USER_Q]|
      ensures var p := k.ready[USER_Q][i]; 0 <= p < |k.group| && 0 <= k.group[p] < GROUPS
    {
      var p := k.ready[USER_Q][i];
      assert p in k.ready[USER_Q];
      assert Runnable(k.prio, k.flags, k.slots.hardware, p);
      assert LocalAt(k, p);
    }
  }

  lemma PermutedDistinct(q: seq<int>, r: seq<int>)
    requires multiset(q) == multiset(r) && Distinct(q)
    ensures Distinct(r) && forall x :: x in r <==> x in q
  {
    forall x ensures x in r <==> x in q { assert x in multiset(q) <==> x in multiset(r); }
    forall i, j | 0 <= i < j < |r| ensures r[i] != r[j] {
      if r[i] == r[j] {
        assert r == r[..i] + [r[i]] + r[i + 1..j] + [r[j]] + r[j + 1..];
        assert multiset(r)[r[i]] >= 2;
        OnceIn(q, r[i]);
        assert false;
      }
    }
  }

  lemma {:induction false} OnceIn(q: seq<int>, x: int)
    requires Distinct(q)
    ensures multiset(q)[x] <= 1
  {
    if q != [] {
      OnceIn(q[1..], x);
      assert q == [q[0]] + q[1..];
      if x == q[0] { assert x !in q[1..]; }
    }
  }

  lemma ReadyPermuted(prio: seq<Priority>, flags: seq<set<Flag>>, ready: seq<seq<int>>, hw: int, r: seq<int>)
    requires ReadyOk(prio, flags, ready, hw) && Distinct(r) && forall x :: x in r <==> x in ready[USER_Q]
    ensures ReadyOk(prio, flags, ready[USER_Q := r], hw)
  {
  }

  lemma RescheduledKeeps(k: Kernel)
    requires Core(k)
    ensures Grouped(k.ready[USER_Q], k.group) && Core(Rescheduled(k)) && (Current(k) ==> Current(Rescheduled(k)))
  {
    UserQueueGrouped(k);
    if k.ready[USER_Q] != [] {
      var r := Sched(k.ready[USER_Q], k.group);
      SchedRefinesTurn(k.ready[USER_Q], k.group);
      PermutedDistinct(k.ready[USER_Q], r);
      ReadyPermuted(k.prio, k.flags, k.ready, k.slots.hardware, r);
      PickedKeeps(k, k.ready[USER_Q := r]);
    }
  }

  lemma PickedKeeps(k: Kernel, ready: seq<seq<int>>)
    requires Core(k) && |ready| == NQ && ReadyOk(k.prio, k.flags, ready, k.slots.hardware)
    ensures var k2 := PickProc(k.(ready := ready)); Core(k2) && Current(k2)
  {
    hide ReadyOk, CallersOk, Acyclic, LocalOk, CountPending;
    var k2 := PickProc(k.(ready := ready));
    assert forall j :: 0 <= j < |k.prio| ==> LocalAt(k, j) == LocalAt(k2, j);
  }
}
