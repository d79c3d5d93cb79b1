/** Runs from boot after which do_fork or do_endsig breaks the kernel's invariant: the failing sides of
    the conditions that KernelRuns and KernelSignals prove exact. */
module KernelCases {
  import opened KernelSpec
  import opened KernelInvariant
  import opened KernelSteps
  import opened KernelSignals
  import opened KernelRuns
  import opened KernelHistory

  const HARDWARE := 0
  const SYSTASK := 1
  const IDLE := 2
  const MM := 3
  const FS := 4
  const USER := 5
  const OTHER := 6
  const SLOTS := 7

  /** The table as main clears it: a task, two servers and two users beside HARDWARE and IDLE. */
  function Empty(): Kernel {
    Kernel([PPRI_TASK, PPRI_TASK, PPRI_IDLE, PPRI_SERVER, PPRI_SERVER, PPRI_USER, PPRI_USER],
           seq(SLOTS, _ => {}), seq(SLOTS, _ => ANY), seq(SLOTS, _ => 0),
           seq(SLOTS, _ => false), seq(SLOTS, _ => false), seq(SLOTS, _ => {}), seq(SLOTS, _ => 0),
           seq(SLOTS, p => p), seq(SLOTS, _ => 0),
           seq(SLOTS, _ => []), [[], [], []], [],
           IDLE, IDLE, 0, Special(HARDWARE, IDLE, MM, FS))
  }

  /** The table with these ready queues, and this process running. */
  function Queues(tasks: seq<int>, servers: seq<int>, users: seq<int>, running: int): Kernel {
    Empty().(ready := [tasks, servers, users], procPtr := running)
  }

  function Booted(): Kernel {
    Queues([SYSTASK], [MM, FS], [OTHER, USER], SYSTASK)
  }

  lemma EmptyIsCleared()
    ensures Cleared(Empty()) && |Empty().prio| == SLOTS && ReadyAll(Empty(), 0) == Queues([], [], [], IDLE)
  {
  }

  /** main's loop passes over HARDWARE and IDLE. */
  lemma ReadyNext(n: nat, tasks: seq<int>, servers: seq<int>, users: seq<int>, running: int)
    requires n < SLOTS && Cleared(Empty()) && |Empty().prio| == SLOTS
    requires ReadyAll(Empty(), n) == Queues(tasks, servers, users, running)
    ensures ReadyAll(Empty(), n + 1) ==
            if n == HARDWARE || n == IDLE then Queues(tasks, servers, users, running)
            else if n == SYSTASK then Queues(tasks + [n], servers, users, if tasks == [] then n else running)
            else if n == MM || n == FS then Queues(tasks, servers + [n], users, running)
            else Queues(tasks, servers, [n] + users, running)
  {
    assert [tasks, servers, users][SERVER_Q := servers + [n]] == [tasks, servers + [n], users];
  }

  lemma Boots()
    ensures Cleared(Empty()) && |Empty().prio| == SLOTS && |ReadyAll(Empty(), SLOTS).ready| == NQ
    ensures PickProc(ReadyAll(Empty(), SLOTS)) == Booted()
    ensures Inv(Booted()) && NothingOutstanding(Booted())
  {
    hide Empty, Queues, ReadyAll, Cleared, Inv, NothingOutstanding, PickProc;
    var none: seq<int> := [];
    assert none + [SYSTASK] == [SYSTASK] && none + [MM] == [MM] && [MM] + [FS] == [MM, FS];
    assert [USER] + none == [USER] && [OTHER] + [USER] == [OTHER, USER];
    EmptyIsCleared();
    ReadyNext(0, [], [], [], IDLE);
    ReadyNext(1, [], [], [], IDLE);
    ReadyNext(2, [SYSTASK], [], [], SYSTASK);
    ReadyNext(3, [SYSTASK], [], [], SYSTASK);
    ReadyNext(4, [SYSTASK], [MM], [], SYSTASK);
    ReadyNext(5, [SYSTASK], [MM, FS], [], SYSTASK);
    ReadyNext(6, [SYSTASK], [MM, FS], [USER], SYSTASK);
    FromBoot(Empty(), []);
    BootedPicked();
  }

  lemma BootedPicked()
    ensures |Booted().ready| == NQ && PickProc(Booted()) == Booted()
  {
  }

  // ---------------------------------------------------------------- do_fork

  function TaskWaits(): Kernel {
    Queues([], [MM, FS], [OTHER, USER], MM).(flags := Empty().flags[SYSTASK := {RECEIVING}])
  }

  function MMWaits(): Kernel {
    Queues([], [FS], [OTHER, USER], FS).(flags := Empty().flags[SYSTASK := {RECEIVING}][MM := {RECEIVING}])
  }

  /** FS is on the caller queue of a user that is not waiting for it. */
  function FSSends(): Kernel {
    Queues([], [], [OTHER, USER], OTHER).(
      flags := Empty().flags[SYSTASK := {RECEIVING}][MM := {RECEIVING}][FS := {SENDING}],
      sendto := Empty().sendto[FS := USER], callers := Empty().callers[USER := [FS]], billPtr := OTHER)
  }

  /** The user is dead, and FS still on the queue of its slot. */
  function UserDied(): Kernel {
    FSSends().(ready := [[], [], [OTHER]], prio := Empty().prio[USER := PPRI_NONE])
  }

  /** The head of its queue leaves. */
  lemma HeadLeaves(k: Kernel, p: int, rest: seq<int>)
    requires |k.ready| == NQ && 0 <= p < |k.prio| && k.ready[QueueOf(k.prio[p])] == [p] + rest && p == k.procPtr
    ensures Unready(k, p) == PickProc(k.(ready := k.ready[QueueOf(k.prio[p]) := rest]))
  {
    var queue := k.ready[QueueOf(k.prio[p])];
    assert IndexOf(queue, p) == 0;
    assert Dropped(queue, 0) == rest;
  }

  /** A task or server that runs receives from anybody, and nothing is at hand. */
  lemma Receives(k: Kernel)
    requires Inv(k) && Is(k, k.procPtr) && k.procPtr != k.slots.idle && k.prio[k.procPtr] != PPRI_USER
    requires WayOf(k, k.procPtr, ANY) == Wait && k.sigProcs == 0
    ensures Allowed(k, Trap(RECEIVE, ANY, true)) && Do(k, Trap(RECEIVE, ANY, true)) == Waiting(k, k.procPtr, ANY)
  {
    InvReads(k);
    RecIs(k, k.procPtr, ANY);
    hide Inv, MiniRec, WayOf;
  }

  lemma TaskIsBlocked()
    ensures Is(Booted(), SYSTASK) && WayOf(Booted(), SYSTASK, ANY) == Wait && Waiting(Booted(), SYSTASK, ANY) == TaskWaits()
  {
    var k := Booted();
    hide Unready;
    assert k.getfrom[SYSTASK := ANY] == k.getfrom;
    HeadLeaves(k, SYSTASK, []);
    assert k.ready[TASK_Q := []] == TaskWaits().ready;
    assert k.flags[SYSTASK] + {RECEIVING} == {RECEIVING};
  }

  lemma MMIsBlocked()
    ensures Is(TaskWaits(), MM) && WayOf(TaskWaits(), MM, ANY) == Wait && Waiting(TaskWaits(), MM, ANY) == MMWaits()
  {
    var k := TaskWaits();
    hide Unready;
    assert k.getfrom[MM := ANY] == k.getfrom;
    HeadLeaves(k, MM, [FS]);
    assert k.ready[SERVER_Q := [FS]] == MMWaits().ready;
    assert k.flags[MM] + {RECEIVING} == {RECEIVING};
  }

  lemma FSIsBlocked()
    ensures var k, b := MMWaits(), Block(MMWaits(), FS, {SENDING});
            && b == k.(ready := FSSends().ready, procPtr := OTHER, billPtr := OTHER, flags := FSSends().flags)
            && Enqueue(b, FS, USER) == FSSends()
  {
    var k := MMWaits();
    hide Unready;
    HeadLeaves(k, FS, []);
    assert k.ready[SERVER_Q := []] == FSSends().ready;
    assert k.flags[FS] + {SENDING} == {SENDING};
    assert k.callers[USER] + [FS] == [FS];
  }

  lemma FSMaySend()
    requires Wired(MMWaits().flags, MMWaits().sendto)
    ensures Is(MMWaits(), FS) && Is(MMWaits(), USER) && MMWaits().procPtr == FS && MMWaits().prio[FS] == PPRI_SERVER
    ensures TrapAllowed(MMWaits(), SEND, From(USER))
    ensures MiniSend(MMWaits(), FS, USER, true) == (Enqueue(Block(MMWaits(), FS, {SENDING}), FS, USER), OK)
  {
    hide Block, Enqueue, Reaches;
  }

  lemma FSBlocks()
    requires Inv(MMWaits())
    ensures Allowed(MMWaits(), Trap(SEND, From(USER), true)) && Do(MMWaits(), Trap(SEND, From(USER), true)) == FSSends()
  {
    var k := MMWaits();
    InvReads(k);
    FSMaySend();
    FSIsBlocked();
    hide Inv, MiniSend, FSSends, MMWaits, TrapAllowed, Wired, CallersInTable;
  }

  lemma UserUnqueued()
    ensures |FSSends().ready| == NQ && USER < |FSSends().prio|
    ensures Unready(FSSends(), USER) == FSSends().(ready := UserDied().ready)
  {
    assert IndexOf([OTHER, USER], USER) == 1 by { assert [OTHER, USER][1..] == [USER]; }
    assert Dropped([OTHER, USER], 1) == [OTHER];
    assert FSSends().ready[USER_Q := [OTHER]] == UserDied().ready;
  }

  lemma UserExits()
    requires Inv(FSSends())
    ensures Allowed(FSSends(), Died(USER)) && Do(FSSends(), Died(USER)) == UserDied()
  {
    var k := FSSends();
    InvReads(k);
    UserUnqueued();
    hide Inv, Unready, IndexOf, Dropped;
    assert k.pending[USER := {}] == k.pending && k.pendcount[USER := 0] == k.pendcount && k.flags[USER := {}] == k.flags;
  }

  /** One operation, and then a run. */
  lemma AndThen(b: Books, op: Op, rest: seq<Op>)
    requires Balanced(b) && Permitted(b, op) && Balanced(Next(b, op)) && PermittedRun(Next(b, op), rest)
    ensures PermittedRun(b, [op] + rest) && Run(b, [op] + rest) == Run(Next(b, op), rest)
  {
    assert ([op] + rest)[1..] == rest;
  }

  lemma Goes(b: Books, op: Op)
    requires Balanced(b) && Allowed(b.k, op) && !op.SignalDone?
    ensures Permitted(b, op) && Balanced(Next(b, op)) && Next(b, op).k == Do(b.k, op)
  {
    NextBalanced(b, op);
  }

  /** From boot: the system task and MM wait for work, FS sends to a user that does not wait for it,
      the user dies, and its slot is given to a child of the other: the child has no callers, and FS
      is sending to it. */
  lemma ForkLosesCaller() returns (ops: seq<Op>)
    ensures ops == [Trap(RECEIVE, ANY, true), Trap(RECEIVE, ANY, true), Trap(SEND, From(USER), true), Died(USER)]
    ensures Cleared(Empty()) && |Empty().prio| == SLOTS && |ReadyAll(Empty(), SLOTS).ready| == NQ
    ensures var k0 := PickProc(ReadyAll(Empty(), SLOTS));
            && Inv(k0) && NothingOutstanding(k0) && PermittedRun(Opened(k0), ops)
            && var k := Run(Opened(k0), ops).k;
            && Is(k, OTHER) && Is(k, USER) && k.prio[OTHER] == PPRI_USER && k.prio[USER] == PPRI_NONE
            && k.callers[USER] == [FS] && !Core(Fork(k, OTHER, USER, 9))
  {
    hide Inv, Balanced, Next, Do, Allowed, Permitted;
    Boots();
    var receive, send, died := Trap(RECEIVE, ANY, true), Trap(SEND, From(USER), true), Died(USER);
    var b0 := Opened(Booted());
    TaskIsBlocked();
    Receives(Booted());
    Goes(b0, receive);
    var b1 := Next(b0, receive);
    BalancedInv(b1);
    MMIsBlocked();
    Receives(TaskWaits());
    Goes(b1, receive);
    var b2 := Next(b1, receive);
    BalancedInv(b2);
    FSBlocks();
    Goes(b2, send);
    var b3 := Next(b2, send);
    BalancedInv(b3);
    UserExits();
    Goes(b3, died);
    var b4 := Next(b3, died);
    BalancedInv(b4);
    Here(b4);
    AndThen(b3, died, []);
    AndThen(b2, send, [died] + []);
    AndThen(b1, receive, [send] + ([died] + []));
    AndThen(b0, receive, [receive] + ([send] + ([died] + [])));
    ops := [receive] + ([receive] + ([send] + ([died] + [])));
    SlotReused();
  }

  lemma BalancedInv(b: Books)
    requires Balanced(b)
    ensures Inv(b.k)
  {
  }

  lemma Here(b: Books)
    requires Balanced(b)
    ensures PermittedRun(b, []) && Run(b, []) == b
  {
  }

  lemma SlotReused()
    requires Inv(UserDied())
    ensures var k := UserDied();
            && Is(k, OTHER) && Is(k, USER) && k.prio[OTHER] == PPRI_USER && k.prio[USER] == PPRI_NONE
            && k.callers[USER] == [FS] && !Core(Fork(k, OTHER, USER, 9))
  {
    ForkExactly(UserDied(), OTHER, USER, 9);
  }

  // ---------------------------------------------------------------- do_endsig

  /** From boot, a user is signalled while MM is busy, so MM is not told; the end of a signal of it
      would be counted all the same. */
  lemma EndsigMiscounts()
    ensures Cleared(Empty()) && |Empty().prio| == SLOTS && |ReadyAll(Empty(), SLOTS).ready| == NQ
    ensures var k0 := PickProc(ReadyAll(Empty(), SLOTS));
            && Inv(k0) && NothingOutstanding(k0) && PermittedRun(Opened(k0), [Signal(USER, 1)])
            && var k := Run(Opened(k0), [Signal(USER, 1)]).k;
            && Is(k, USER) && Proper(k, SignalDone(USER)) && k.pendcount[USER] == 1 && k.pending[USER] == {1}
            && !Core(EndSig(k, USER).0)
  {
    hide Inv, Balanced, Next, Do, Allowed, Permitted, Proper, Core;
    Boots();
    var b, op := Opened(Booted()), Signal(USER, 1);
    SignalledUntold();
    Goes(b, op);
    Here(Next(b, op));
    AndThen(b, op, []);
    assert [op] + [] == [op];
    BalancedInv(Next(b, op));
    EndOfUntold(Next(b, op).k);
  }

  lemma EndOfUntold(k: Kernel)
    requires Inv(k) && Is(k, USER) && k.prio[USER] == PPRI_USER && k.pendcount[USER] == 1 && k.pending[USER] == {1}
    ensures !Core(EndSig(k, USER).0)
  {
    EndSigExactly(k, USER);
  }

  lemma SignalledUntold()
    requires Inv(Booted())
    ensures Allowed(Booted(), Signal(USER, 1))
    ensures var k := Do(Booted(), Signal(USER, 1));
            && Is(k, USER) && Proper(k, SignalDone(USER)) && k.prio[USER] == PPRI_USER
            && k.pendcount[USER] == 1 && k.pending[USER] == {1}
  {
    InvReads(Booted());
    SignalHolds();
    CauseIs(Booted(), USER, 1);
    hide Inv, Booted, HeldBack, CauseSig;
  }

  lemma SignalHolds()
    ensures Is(Booted(), USER) && Booted().prio[USER] == PPRI_USER
    ensures Booted().pending[USER] == {} && PENDING !in Booted().flags[USER]
    ensures var h := HeldBack(Booted(), USER, 1);
            && Is(h, USER) && h.prio[USER] == PPRI_USER && !MMListens(h) && h.ready[TASK_Q] != []
            && h.pendcount[USER] == 1 && h.pending[USER] == {1}
  {
    hide Unready;
    UserLeaves(Recorded(Booted(), USER, 1));
    assert {} + {1} == {1};
  }

  lemma UserLeaves(k: Kernel)
    requires Is(k, USER) && k.prio[USER] == PPRI_USER
    ensures var u := Unready(k, USER);
            && |u.ready| == NQ && u.ready[TASK_Q] == k.ready[TASK_Q]
            && u == k.(ready := u.ready, procPtr := u.procPtr, billPtr := u.billPtr)
  {
  }
}
