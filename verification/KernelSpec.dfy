/** The MINIX kernel of scheduling/src/kernel (proc.c, system.c) as a value: one column per field
    of struct proc, the lists as sequences, and every operation as a function of the state.
    A process is named by its slot in the table. */
module KernelSpec {
  import opened UserQueue

  datatype Flag = NO_MAP | SENDING | RECEIVING | PENDING | SIG_PENDING | P_STOP
  datatype Priority = PPRI_NONE | PPRI_TASK | PPRI_SERVER | PPRI_USER | PPRI_IDLE
  datatype Source = ANY | From(slot: int)
  datatype Function = SEND | RECEIVE | BOTH
  datatype Status = OK | ELOCKED | E_BAD_DEST | E_BAD_SRC | E_NO_PERM | E_BAD_PROC | EFAULT

  const TASK_Q := 0
  const SERVER_Q := 1
  const USER_Q := 2
  const NQ := 3

  /** The slots the kernel knows by number. */
  datatype Special = Special(hardware: int, idle: int, mm: int, fs: int)

  datatype Kernel = Kernel(
    prio: seq<Priority>, flags: seq<set<Flag>>, getfrom: seq<Source>, sendto: seq<int>,
    intBlocked: seq<bool>, intHeld: seq<bool>, pending: seq<set<int>>, pendcount: seq<nat>,
    pid: seq<int>, group: seq<int>,
    callers: seq<seq<int>>, ready: seq<seq<int>>, held: seq<int>,
    procPtr: int, billPtr: int, sigProcs: int, slots: Special)

  /** Every column has an entry for every slot. */
  ghost predicate Shape(k: Kernel) {
    var n := |k.prio|;
    && |k.flags| == |k.getfrom| == |k.sendto| == |k.intBlocked| == |k.intHeld| == n
    && |k.pending| == |k.pendcount| == |k.pid| == |k.group| == |k.callers| == n
    && |k.ready| == NQ
    && 0 <= k.slots.hardware < n && 0 <= k.slots.idle < n && 0 <= k.slots.mm < n && 0 <= k.slots.fs < n
  }

  ghost predicate Is(k: Kernel, p: int) {
    Shape(k) && 0 <= p < |k.prio|
  }

  // ---------------------------------------------------------------- scheduling

  function QueueOf(pr: Priority): (q: int)
    ensures 0 <= q < NQ
  {
    match pr
    case PPRI_TASK => TASK_Q
    case PPRI_SERVER => SERVER_Q
    case _ => USER_Q
  }

  /** The head of the highest queue that is not empty. */
  function Picked(ready: seq<seq<int>>, idle: int): int
    requires |ready| == NQ
  {
    if ready[TASK_Q] != [] then ready[TASK_Q][0]
    else if ready[SERVER_Q] != [] then ready[SERVER_Q][0]
    else if ready[USER_Q] != [] then ready[USER_Q][0]
    else idle
  }

  function PickProc(k: Kernel): Kernel
    requires |k.ready| == NQ
  {
    var p := Picked(k.ready, k.slots.idle);
    var billed := k.ready[TASK_Q] == [] && k.ready[SERVER_Q] == [];
    k.(procPtr := p, billPtr := if billed then p else k.billPtr)
  }

  /** Tasks and servers go to the end of their queue, users to the front of theirs. */
  function Ready(k: Kernel, p: int): Kernel
    requires |k.ready| == NQ && 0 <= p < |k.prio|
  {
    var q := QueueOf(k.prio[p]);
    var queue := if q == USER_Q then [p] + k.ready[q] else k.ready[q] + [p];
    k.(ready := k.ready[q := queue],
       procPtr := if q == TASK_Q && k.ready[q] == [] then p else k.procPtr)
  }

  function IndexOf(q: seq<int>, p: int): (i: nat)
    ensures i <= |q|
    ensures forall j :: 0 <= j < i ==> q[j] != p
    ensures i < |q| ==> q[i] == p
  {
    if q == [] || q[0] == p then 0 else 1 + IndexOf(q[1..], p)
  }

  function Dropped(q: seq<int>, i: nat): seq<int>
    requires i < |q|
  {
    q[..i] + q[i + 1..]
  }

  /** A new process is picked only when a queue's head goes. */
  function Unready(k: Kernel, p: int): Kernel
    requires |k.ready| == NQ && 0 <= p < |k.prio|
  {
    var q := QueueOf(k.prio[p]);
    var i := IndexOf(k.ready[q], p);
    if i == |k.ready[q]| then k
    else
      var k1 := k.(ready := k.ready[q := Dropped(k.ready[q], i)]);
      if i == 0 && (q != TASK_Q || p == k.procPtr) then PickProc(k1) else k1
  }

  /** sched: see UserQueue.Sched. */
  ghost function Rescheduled(k: Kernel): Kernel
    requires |k.ready| == NQ && Grouped(k.ready[USER_Q], k.group)
  {
    if k.ready[USER_Q] == [] then k
    else PickProc(k.(ready := k.ready[USER_Q := Sched(k.ready[USER_Q], k.group)]))
  }

  // ---------------------------------------------------------------- blocking and unblocking

  /** Set flags; a process that was runnable leaves its ready queue first. */
  function Block(k: Kernel, p: int, f: set<Flag>): Kernel
    requires |k.ready| == NQ && 0 <= p < |k.prio| == |k.flags|
  {
    var k1 := if k.flags[p] == {} then Unready(k, p) else k;
    k1.(flags := k1.flags[p := k1.flags[p] + f])
  }

  /** Clear a flag; a process left with none joins its ready queue. */
  function Unblock(k: Kernel, p: int, f: Flag): Kernel
    requires |k.ready| == NQ && 0 <= p < |k.prio| == |k.flags|
  {
    var k1 := k.(flags := k.flags[p := k.flags[p] - {f}]);
    if k1.flags[p] == {} then Ready(k1, p) else k1
  }

  // ---------------------------------------------------------------- messages

  /** Where the walk along "is sending to" has got after n steps from p; it ends at a process that
      is not sending. */
  datatype Place = At(p: int) | Ended

  ghost predicate Wired(flags: seq<set<Flag>>, sendto: seq<int>) {
    && |flags| == |sendto|
    && forall p :: 0 <= p < |flags| && SENDING in flags[p] ==> 0 <= sendto[p] < |flags|
  }

  ghost function Walk(flags: seq<set<Flag>>, sendto: seq<int>, p: int, n: nat): (w: Place)
    requires Wired(flags, sendto) && 0 <= p < |flags|
    ensures w.At? ==> 0 <= w.p < |flags|
    decreases n
  {
    if n == 0 then At(p)
    else if SENDING in flags[p] then Walk(flags, sendto, sendto[p], n - 1)
    else Ended
  }

  ghost predicate Reaches(flags: seq<set<Flag>>, sendto: seq<int>, p: int, q: int)
    requires Wired(flags, sendto) && 0 <= p < |flags|
  {
    exists n: nat :: Walk(flags, sendto, p, n) == At(q)
  }

  /** The deadlock test of mini_send. */
  ghost predicate Locked(k: Kernel, caller: int, dest: int)
    requires Is(k, dest) && Wired(k.flags, k.sendto)
  {
    SENDING in k.flags[dest] && Reaches(k.flags, k.sendto, k.sendto[dest], caller)
  }

  predicate Accepts(src: Source, p: int) {
    src == ANY || src == From(p)
  }

  /** dest is blocked waiting for a message from p, and for nothing else first. */
  predicate WaitsFor(flags: set<Flag>, getfrom: Source, p: int) {
    RECEIVING in flags && SENDING !in flags && Accepts(getfrom, p)
  }

  ghost function MiniSend(k: Kernel, caller: int, dest: int, addressOk: bool): (Kernel, Status)
    requires Is(k, caller) && Is(k, dest) && Wired(k.flags, k.sendto)
  {
    if k.prio[caller] == PPRI_USER && dest != k.slots.fs && dest != k.slots.mm then (k, E_BAD_DEST)
    else if k.prio[dest] == PPRI_NONE then (k, E_BAD_DEST)
    else if !addressOk then (k, EFAULT)
    else if Locked(k, caller, dest) then (k, ELOCKED)
    else if WaitsFor(k.flags[dest], k.getfrom[dest], caller) then (Unblock(k, dest, RECEIVING), OK)
    else (Enqueue(Block(k, caller, {SENDING}), caller, dest), OK)
  }

  function Enqueue(k: Kernel, caller: int, dest: int): Kernel
    requires 0 <= caller < |k.sendto| && 0 <= dest < |k.callers|
  {
    k.(sendto := k.sendto[caller := dest], callers := k.callers[dest := k.callers[dest] + [caller]])
  }

  /** The first caller whose message is acceptable, or the length of the queue. */
  function FirstAccepted(callers: seq<int>, src: Source): (i: nat)
    ensures i <= |callers|
    ensures forall j :: 0 <= j < i ==> !Accepts(src, callers[j])
    ensures i < |callers| ==> Accepts(src, callers[i])
  {
    if callers == [] || Accepts(src, callers[0]) then 0 else 1 + FirstAccepted(callers[1..], src)
  }

  /** Take the message of the i-th caller, and let it go. */
  function Receive(k: Kernel, p: int, i: nat): Kernel
    requires |k.ready| == NQ && 0 <= p < |k.callers| && i < |k.callers[p]|
    requires 0 <= k.callers[p][i] < |k.prio| == |k.flags|
  {
    Unblock(k.(callers := k.callers[p := Dropped(k.callers[p], i)]), k.callers[p][i], SENDING)
  }

  ghost predicate CallersInTable(k: Kernel) {
    forall p, i :: 0 <= p < |k.callers| && 0 <= i < |k.callers[p]| ==> 0 <= k.callers[p][i] < |k.prio|
  }

  ghost function MiniRec(k: Kernel, caller: int, src: Source): Kernel
    requires Is(k, caller) && Wired(k.flags, k.sendto) && CallersInTable(k)
  {
    var i := FirstAccepted(k.callers[caller], src);
    if SENDING !in k.flags[caller] && i < |k.callers[caller]| then Receive(k, caller, i)
    else if SENDING !in k.flags[caller] && k.intBlocked[caller] && Accepts(src, k.slots.hardware) then
      k.(intBlocked := k.intBlocked[caller := false])
    else
      var k1 := Block(k.(getfrom := k.getfrom[caller := src]), caller, {RECEIVING});
      if k1.sigProcs > 0 && caller == k1.slots.mm && src == ANY then Inform(k1) else k1
  }

  /** A trap from the process now running. */
  ghost function SysCall(k: Kernel, f: Function, other: Source, addressOk: bool): (Kernel, Status)
    requires Is(k, k.procPtr) && Wired(k.flags, k.sendto) && CallersInTable(k)
    requires f != RECEIVE && other == ANY ==> k.prio[k.procPtr] == PPRI_USER
  {
    var p := k.procPtr;
    if other.From? && !(0 <= other.slot < |k.prio|) then (k, E_BAD_SRC)
    else if k.prio[p] == PPRI_USER && f != BOTH then (k, E_NO_PERM)
    else if f == RECEIVE then (MiniRec(k, p, other), OK)
    else if other == ANY then (k, E_BAD_DEST)
    else
      var (k1, r) := MiniSend(k, p, other.slot, addressOk);
      if f == SEND || r != OK then (k1, r)
      else
        SendKeepsWired(k, p, other.slot, addressOk);
        (MiniRec(k1, p, other), OK)
  }

  /** Blocking and unblocking change no wiring. */
  lemma FlagsOnly(k: Kernel, caller: int, dest: int)
    requires Is(k, caller) && Is(k, dest)
    ensures var b, u := Block(k, caller, {SENDING}), Unblock(k, dest, RECEIVING);
            && Shape(b) && b.prio == k.prio && b.sendto == k.sendto && b.callers == k.callers
            && b.flags == k.flags[caller := k.flags[caller] + {SENDING}]
            && Shape(u) && u.prio == k.prio && u.sendto == k.sendto && u.callers == k.callers
            && u.flags == k.flags[dest := k.flags[dest] - {RECEIVING}]
  {
  }

  lemma SendKeepsWired(k: Kernel, caller: int, dest: int, addressOk: bool)
    requires Is(k, caller) && Is(k, dest) && Wired(k.flags, k.sendto) && CallersInTable(k)
    ensures var k1 := MiniSend(k, caller, dest, addressOk).0;
            Shape(k1) && |k1.prio| == |k.prio| && Wired(k1.flags, k1.sendto) && CallersInTable(k1)
  {
    hide Reaches, Block, Unblock;
    FlagsOnly(k, caller, dest);
    var k1 := MiniSend(k, caller, dest, addressOk).0;
    if k1.callers != k.callers {
      assert k1.callers == k.callers[dest := k.callers[dest] + [caller]];
    }
  }

  // ---------------------------------------------------------------- interrupts

  ghost function Interrupt(k: Kernel, task: int, competing: bool): Kernel
    requires Is(k, task)
  {
    if competing then
      if k.intHeld[task] then k
      else k.(intHeld := k.intHeld[task := true], held := k.held + [task])
    else if !WaitsFor(k.flags[task], k.getfrom[task], k.slots.hardware) then
      k.(intBlocked := k.intBlocked[task := true])
    else
      k.(flags := k.flags[task := k.flags[task] - {RECEIVING}],
         intBlocked := k.intBlocked[task := false],
         ready := k.ready[TASK_Q := k.ready[TASK_Q] + [task]],
         procPtr := if k.ready[TASK_Q] == [] then task else k.procPtr)
  }

  ghost function ReleaseHeld(k: Kernel): Kernel
    requires k.held != [] && Is(k, k.held[0])
  {
    Interrupt(k.(held := k.held[1..], intHeld := k.intHeld[k.held[0] := false]), k.held[0], false)
  }

  /** unhold: repeat every held interrupt, oldest first. */
  ghost function Unhold(k: Kernel): Kernel
    requires Shape(k) && forall i :: 0 <= i < |k.held| ==> 0 <= k.held[i] < |k.prio|
    decreases |k.held|
  {
    if k.held == [] then k else Unhold(ReleaseHeld(k))
  }

  // ---------------------------------------------------------------- signals

  /** The first slot from `from` on with PENDING set, or the size of the table. */
  function FirstPending(flags: seq<set<Flag>>, from: nat): (i: nat)
    requires from <= |flags|
    ensures from <= i <= |flags|
    ensures forall j :: from <= j < i ==> PENDING !in flags[j]
    ensures i < |flags| ==> PENDING in flags[i]
    decreases |flags| - from
  {
    if from == |flags| || PENDING in flags[from] then from else FirstPending(flags, from + 1)
  }

  /** Tell MM about one process's signals. */
  ghost function Inform(k: Kernel): Kernel
    requires Shape(k) && Wired(k.flags, k.sendto)
  {
    var i := FirstPending(k.flags, k.slots.mm);
    if i == |k.flags| then k
    else
      var k1 := MiniSend(k.(sigProcs := k.sigProcs - 1), k.slots.hardware, k.slots.mm, true).0;
      PickProc(k1.(pending := k1.pending[i := {}], flags := k1.flags[i := k1.flags[i] - {PENDING}]))
  }

  ghost function CauseSig(k: Kernel, p: int, sig: int): Kernel
    requires Is(k, p) && Wired(k.flags, k.sendto)
  {
    if sig in k.pending[p] then k
    else
      var k1 := k.(pending := k.pending[p := k.pending[p] + {sig}], pendcount := k.pendcount[p := k.pendcount[p] + 1]);
      if PENDING in k1.flags[p] then k1
      else
        var k2 := Block(k1, p, {PENDING, SIG_PENDING}).(sigProcs := k1.sigProcs + 1);
        if RECEIVING in k2.flags[k2.slots.mm] && k2.getfrom[k2.slots.mm] == ANY then Inform(k2) else k2
  }

  ghost function EndSig(k: Kernel, p: int): (Kernel, Status)
    requires Is(k, p)
  {
    if k.prio[p] == PPRI_NONE then (k, E_BAD_PROC)
    else if k.pendcount[p] == 0 then (k, OK)
    else
      var k1 := k.(pendcount := k.pendcount[p := k.pendcount[p] - 1]);
      if k1.pendcount[p] > 0 then (k1, OK) else (Unblock(k1, p, SIG_PENDING), OK)
  }

  // ---------------------------------------------------------------- processes come and go

  ghost function LeaveQueue(k: Kernel, p: int): Kernel
    requires Is(k, p) && Wired(k.flags, k.sendto)
  {
    if SENDING !in k.flags[p] then k
    else
      var d := k.sendto[p];
      var i := IndexOf(k.callers[d], p);
      if i == |k.callers[d]| then k else k.(callers := k.callers[d := Dropped(k.callers[d], i)])
  }

  ghost function Exit(k: Kernel, p: int): Kernel
    requires Is(k, p) && Wired(k.flags, k.sendto)
  {
    var k1 := LeaveQueue(if k.flags[p] == {} then Unready(k, p) else k, p);
    k1.(sigProcs := if PENDING in k1.flags[p] then k1.sigProcs - 1 else k1.sigProcs,
        pending := k1.pending[p := {}], pendcount := k1.pendcount[p := 0],
        flags := k1.flags[p := {}], prio := k1.prio[p := PPRI_NONE])
  }

  function NewMap(k: Kernel, p: int): Kernel
    requires |k.ready| == NQ && 0 <= p < |k.prio| == |k.flags|
  {
    if k.flags[p] == {} then k else Unblock(k, p, NO_MAP)
  }

  /** do_fork copies the whole slot, and then corrects some of its fields. */
  ghost function Fork(k: Kernel, parent: int, child: int, pid: int): Kernel
    requires Is(k, parent) && Is(k, child)
  {
    k.(prio := k.prio[child := k.prio[parent]],
       flags := k.flags[child := k.flags[parent] + {NO_MAP} - {PENDING, SIG_PENDING, P_STOP}],
       getfrom := k.getfrom[child := k.getfrom[parent]], sendto := k.sendto[child := k.sendto[parent]],
       intBlocked := k.intBlocked[child := k.intBlocked[parent]], intHeld := k.intHeld[child := k.intHeld[parent]],
       pending := k.pending[child := {}], pendcount := k.pendcount[child := 0],
       pid := k.pid[child := pid], group := k.group[child := 0],
       callers := k.callers[child := k.callers[parent]])
  }

  /** findProcDescriptor: the first slot with this pid, or the size of the table. */
  function FindPid(pids: seq<int>, pid: int): (i: nat)
    ensures i <= |pids|
    ensures forall j :: 0 <= j < i ==> !(pids[j] != 0 && pids[j] == pid)
    ensures i < |pids| ==> pids[i] != 0 && pids[i] == pid
  {
    if pids == [] || (pids[0] != 0 && pids[0] == pid) then 0 else 1 + FindPid(pids[1..], pid)
  }

  ghost function SetGroup(k: Kernel, pid: int, group: int): (Kernel, Status)
    requires Shape(k)
  {
    if group < 0 || group > 2 then (k, EFAULT)
    else
      var i := FindPid(k.pid, pid);
      if i == |k.pid| then (k, EFAULT) else (k.(group := k.group[i := group]), OK)
  }
}
