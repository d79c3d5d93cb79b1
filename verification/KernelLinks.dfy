/** What one change of links does to a queue of the process table, and sched and the deadlock walk
    step by step; the facts KernelMachine's methods rest on. */
module KernelLinks {
  import opened Chains
  import opened UserQueue
  import opened KernelSpec
  import opened SendGraph
  import opened KernelInvariant
  import opened KernelSteps
  import opened KernelSignals
  import opened KernelRuns
  import opened ProcTable

  ghost predicate Linked(t: seq<Proc>, head: seq<int>, tail: seq<int>, heldHead: int, heldTail: int, q: Lines) {
    && ReadyLinked(NextReady(t), head, tail, q.ready)
    && CallersLinked(SendLinks(t), CallerQs(t), q.callers)
    && Queue(NextHeld(t), heldHead, heldTail, q.held)
  }

  // ---------------------------------------------------------------- the search for a queue entry

  lemma FoundAt(q: seq<int>, p: int, i: nat)
    requires i < |q| && q[i] == p && forall j :: 0 <= j < i ==> q[j] != p
    ensures IndexOf(q, p) == i
  {
  }

  lemma FoundNowhere(q: seq<int>, p: int)
    requires forall j :: 0 <= j < |q| ==> q[j] != p
    ensures IndexOf(q, p) == |q|
  {
  }

  // ---------------------------------------------------------------- relinking a ready queue

  lemma Whole(t: seq<Proc>, head: seq<int>, tail: seq<int>, hh: int, ht: int, q: Lines)
    requires ReadyLinked(NextReady(t), head, tail, q.ready)
    requires CallersLinked(SendLinks(t), CallerQs(t), q.callers) && Queue(NextHeld(t), hh, ht, q.held)
    ensures Linked(t, head, tail, hh, ht, q)
  {
  }

  lemma TailLinked(next: seq<int>, head: seq<int>, tail: seq<int>, ready: seq<seq<int>>, a: int, p: int)
    requires ReadyLinked(next, head, tail, ready) && 0 <= a < NQ && 0 <= p < |next| && Nowhere(ready, p)
    ensures ready[a] == [] ==> ReadyLinked(next[p := NIL], head[a := p], tail[a := p], ready[a := ready[a] + [p]])
    ensures ready[a] != [] ==> 0 <= tail[a] < |next|
    ensures ready[a] != [] ==>
              ReadyLinked(next[tail[a] := p][p := NIL], head, tail[a := p], ready[a := ready[a] + [p]])
  {
    hide Queue, ReadyLinked;
    QueueAt(next, head, tail, ready, a);
    QueueAppend(next, head[a], tail[a], ready[a], p);
    if ready[a] == [] {
      ReadyOne(next, head, tail, ready, a, next[p := NIL], p, p, ready[a] + [p]);
    } else {
      ReadyOne(next, head, tail, ready, a, next[tail[a] := p][p := NIL], head[a], p, ready[a] + [p]);
      assert head[a := head[a]] == head;
    }
  }

  lemma QueueAt(next: seq<int>, head: seq<int>, tail: seq<int>, ready: seq<seq<int>>, a: int)
    requires ReadyLinked(next, head, tail, ready) && 0 <= a < NQ
    ensures |head| == |tail| == |ready| == NQ && Queue(next, head[a], tail[a], ready[a])
  {
  }

  lemma FrontLinked(next: seq<int>, head: seq<int>, tail: seq<int>, ready: seq<seq<int>>, a: int, p: int)
    requires ReadyLinked(next, head, tail, ready) && 0 <= a < NQ && 0 <= p < |next| && Nowhere(ready, p)
    ensures ReadyLinked(next[p := head[a]], head[a := p], if ready[a] == [] then tail[a := p] else tail,
                        ready[a := [p] + ready[a]])
  {
    hide Queue, ReadyLinked;
    QueueAt(next, head, tail, ready, a);
    QueuePush(next, head[a], tail[a], ready[a], p);
    ReadyOne(next, head, tail, ready, a, next[p := head[a]], p, if ready[a] == [] then p else tail[a], [p] + ready[a]);
    assert tail[a := tail[a]] == tail;
  }

  lemma DropLinked(next: seq<int>, head: seq<int>, tail: seq<int>, ready: seq<seq<int>>, a: int, i: nat)
    requires ReadyLinked(next, head, tail, ready) && 0 <= a < NQ && |ready| == NQ && i < |ready[a]|
    ensures |head| == |tail| == NQ && 0 <= ready[a][i] < |next|
    ensures i == 0 ==> head[a] == ready[a][i]
                       && ReadyLinked(next, head[a := next[head[a]]], tail, ready[a := Dropped(ready[a], i)])
    ensures i > 0 ==> 0 <= ready[a][i - 1] < |next| && next[ready[a][i - 1]] == ready[a][i]
    ensures var p, x := ready[a][if i > 0 then i - 1 else 0], ready[a][i];
            i > 0 ==> ReadyLinked(next[p := next[x]], head, if tail[a] == x then tail[a := p] else tail,
                                  ready[a := Dropped(ready[a], i)])
  {
    hide Queue, ReadyLinked;
    QueueAt(next, head, tail, ready, a);
    QueueDrop(next, head[a], tail[a], ready[a], i);
    assert head[a := head[a]] == head && tail[a := tail[a]] == tail;
    var l := Dropped(ready[a], i);
    assert forall x :: x in l ==> x in ready[a];
    if i == 0 {
      ReadyOne(next, head, tail, ready, a, next, next[head[a]], tail[a], l);
    } else {
      var p, x := ready[a][i - 1], ready[a][i];
      assert p in ready[a];
      ReadyOne(next, head, tail, ready, a, next[p := next[x]], head[a], if tail[a] == x then p else tail[a], l);
    }
  }

  /** The four assignments that move a queue's head to its tail. */
  lemma QueueRotate(next: seq<int>, head: int, tail: int, l: seq<int>)
    requires Queue(next, head, tail, l) && l != []
    ensures 0 <= head < |next| && 0 <= tail < |next| && head in l && tail in l
    ensures var next1 := next[tail := head]; Queue(next1[head := NIL], next1[head], head, Rotate(l))
  {
    QueueHead(next, head, tail, l);
    QueueDrop(next, head, tail, l, 0);
    QueueNode(next, head, tail, l, 0);
    assert Dropped(l, 0) == l[1..];
    hide Queue;
    QueueAppend(next, next[head], tail, l[1..], head);
    if |l| == 1 {
      assert Rotate(l) == [] + [head];
      assert next[head := head][head := NIL] == next[head := NIL];
    } else {
      assert l[1..][0] == l[1];
    }
  }

  lemma RotateLinked(next: seq<int>, head: seq<int>, tail: seq<int>, ready: seq<seq<int>>, a: int)
    requires ReadyLinked(next, head, tail, ready) && 0 <= a < NQ && |ready| == NQ && ready[a] != []
    ensures |head| == |tail| == NQ && 0 <= head[a] < |next| && 0 <= tail[a] < |next|
    ensures var h, next1 := head[a], next[tail[a] := head[a]];
            ReadyLinked(next1[h := NIL], head[a := next1[h]], tail[a := h], ready[a := Rotate(ready[a])])
  {
    hide Queue, ReadyLinked;
    QueueAt(next, head, tail, ready, a);
    QueueRotate(next, head[a], tail[a], ready[a]);
    var next1 := next[tail[a] := head[a]];
    ReadyOne(next, head, tail, ready, a, next1[head[a] := NIL], next1[head[a]], head[a], Rotate(ready[a]));
  }

  lemma OffItsQueue(next: seq<int>, head: seq<int>, tail: seq<int>, ready: seq<seq<int>>, a: int, i: nat)
    requires ReadyLinked(next, head, tail, ready) && 0 <= a < NQ && |ready| == NQ && i < |ready[a]|
    ensures Nowhere(ready[a := Dropped(ready[a], i)], ready[a][i])
  {
  }

  lemma NextOf(t: seq<Proc>, p: int)
    requires 0 <= p < |t|
    ensures NextReady(t)[p] == t[p].p_nextready && |NextReady(t)| == |t|
  {
  }

  // ---------------------------------------------------------------- sched, on values

  lemma FirstOfIs(q: seq<int>, g: seq<int>, group: int, k: nat)
    requires Grouped(q, g) && k <= |q| && (k < |q| ==> g[q[k]] == group)
    requires forall i :: 0 <= i < k ==> g[q[i]] != group
    ensures FirstOf(q, g, group) == k
  {
  }

  /** The user queue after one round of sched's loop. */
  ghost function BroughtUp(q: seq<int>, g: seq<int>, group: int): seq<int>
    requires Grouped(q, g)
  {
    var k := FirstOf(q, g, group);
    if k < |q| then MoveToFront(q, k) else q
  }

  lemma AtFrontAlready(q: seq<int>, g: seq<int>, group: int)
    requires Grouped(q, g) && q != [] && g[q[0]] == group
    ensures BroughtUp(q, g, group) == q
  {
  }

  lemma BroughtInSteps(q: seq<int>, g: seq<int>, group: int, k: nat)
    requires Grouped(q, g) && k < |q| && FirstOf(q, g, group) == k
    ensures [q[k]] + Dropped(q, k) == BroughtUp(q, g, group)
  {
  }

  ghost predicate Absent(r: seq<int>, g: seq<int>, group: int)
    requires Grouped(r, g)
  {
    FirstOf(r, g, group) == |r|
  }

  /** The n groups after h have no entry in the queue. */
  ghost predicate Passed(r: seq<int>, g: seq<int>, h: int, n: nat)
    requires Grouped(r, g)
  {
    && (n >= 1 ==> Absent(r, g, (h + 1) % GROUPS)) && (n >= 2 ==> Absent(r, g, (h + 2) % GROUPS))
    && (n >= 3 ==> Absent(r, g, h))
  }

  lemma NoFourthRound(q: seq<int>, g: seq<int>, n: nat)
    requires Grouped(q, g) && q != []
    ensures Grouped(Rotate(q), g) && Rotate(q) != []
    ensures Passed(Rotate(q), g, g[q[0]], n) ==> n < 3
  {
    RotateGrouped(q, g);
    assert Rotate(q)[|q| - 1] == q[0];
    assert FirstOf(Rotate(q), g, g[q[0]]) < |q|;
  }

  lemma BroughtUpHead(r: seq<int>, g: seq<int>, group: int)
    requires Grouped(r, g) && r != []
    ensures var b := BroughtUp(r, g, group);
            && b != [] && Grouped(b, g)
            && (g[b[0]] == group <==> !Absent(r, g, group)) && (Absent(r, g, group) ==> b == r)
  {
  }

  lemma NextIs(r: seq<int>, g: seq<int>, h: int, n: nat)
    requires Grouped(r, g) && 0 <= h < GROUPS && n < 3 && Passed(r, g, h, n) && !Absent(r, g, (h + n + 1) % GROUPS)
    ensures NextPresent(r, g, h) == (h + n + 1) % GROUPS
  {
  }

  lemma RoundEnds(q: seq<int>, g: seq<int>, n: nat)
    requires Grouped(q, g) && q != [] && n < 3 && Grouped(Rotate(q), g) && Passed(Rotate(q), g, g[q[0]], n)
    ensures var r, group := Rotate(q), (g[q[0]] + n + 1) % GROUPS;
            var b := BroughtUp(r, g, group);
            && b != [] && Grouped(b, g)
            && (g[b[0]] == group ==> b == Sched(q, g))
            && (g[b[0]] != group ==> b == r && Passed(r, g, g[q[0]], n + 1))
  {
    hide BroughtUp, Rotate, Sched, Absent, Passed, NextPresent, FirstOf;
    var r, h := Rotate(q), g[q[0]];
    NotEmptied(q);
    BroughtUpHead(r, g, (h + n + 1) % GROUPS);
    if Absent(r, g, (h + n + 1) % GROUPS) {
      PassedMore(r, g, h, n);
    } else {
      NextIs(r, g, h, n);
      SchedIs(q, g);
    }
  }

  lemma NotEmptied(q: seq<int>)
    requires q != []
    ensures Rotate(q) != []
  {
  }

  lemma SchedIs(q: seq<int>, g: seq<int>)
    requires Grouped(q, g) && q != [] && Grouped(Rotate(q), g)
    ensures Sched(q, g) == BroughtUp(Rotate(q), g, NextPresent(Rotate(q), g, g[q[0]]))
  {
  }

  lemma PassedMore(r: seq<int>, g: seq<int>, h: int, n: nat)
    requires Grouped(r, g) && 0 <= h < GROUPS && n < 3 && Passed(r, g, h, n) && Absent(r, g, (h + n + 1) % GROUPS)
    ensures Passed(r, g, h, n + 1)
  {
  }

  lemma NonePassed(r: seq<int>, g: seq<int>, h: int)
    requires Grouped(r, g)
    ensures Passed(r, g, h, 0)
  {
  }

  lemma NoneToBringUp(q: seq<int>, g: seq<int>, group: int)
    requires Grouped(q, g) && FirstOf(q, g, group) == |q|
    ensures BroughtUp(q, g, group) == q
  {
  }

  lemma Unchanged<T>(s: seq<T>, i: nat)
    requires i < |s|
    ensures s[i := s[i]] == s
  {
  }

  lemma NodeOffQueue(t: seq<Proc>, head: seq<int>, tail: seq<int>, hh: int, ht: int, q: Lines, i: nat)
    requires Linked(t, head, tail, hh, ht, q) && |q.ready| == NQ && i < |q.ready[USER_Q]|
    ensures Nowhere(q.ready[USER_Q := Dropped(q.ready[USER_Q], i)], q.ready[USER_Q][i])
  {
    OffItsQueue(NextReady(t), head, tail, q.ready, USER_Q, i);
  }

  // ---------------------------------------------------------------- relinking a caller queue

  lemma CallersAt(next: seq<int>, heads: seq<int>, callers: seq<seq<int>>, d: int)
    requires CallersLinked(next, heads, callers) && 0 <= d < |callers|
    ensures |heads| == |next| == |callers| && Chain(next, heads[d], callers[d]) && Distinct(callers[d])
    ensures heads[d] == First(callers[d], NIL) && (heads[d] == NIL <==> callers[d] == [])
  {
  }

  lemma EnqueueLinked(next: seq<int>, heads: seq<int>, callers: seq<seq<int>>, d: int, c: int)
    requires CallersLinked(next, heads, callers) && 0 <= d < |callers| && 0 <= c < |next| && Nowhere(callers, c)
    ensures |heads| == |callers| == |next|
    ensures callers[d] == [] ==> CallersLinked(next[c := NIL], heads[d := c], callers[d := callers[d] + [c]])
    ensures callers[d] != [] ==> 0 <= Last(callers[d]) < |next|
    ensures callers[d] != [] ==>
              CallersLinked(next[Last(callers[d]) := c][c := NIL], heads, callers[d := callers[d] + [c]])
  {
    hide CallersLinked, Segment;
    CallersAt(next, heads, callers, d);
    var l := callers[d];
    QueueAppend(next, heads[d], if l == [] then NIL else Last(l), l, c);
    if l == [] {
      CallersOne(next, heads, callers, d, next[c := NIL], c, l + [c]);
    } else {
      CallersOne(next, heads, callers, d, next[Last(l) := c][c := NIL], heads[d], l + [c]);
      assert heads[d := heads[d]] == heads;
    }
  }

  lemma DequeueLinked(next: seq<int>, heads: seq<int>, callers: seq<seq<int>>, d: int, i: nat)
    requires CallersLinked(next, heads, callers) && 0 <= d < |callers| && i < |callers[d]|
    ensures |heads| == |callers| == |next| && 0 <= callers[d][i] < |next| && (heads[d] == callers[d][i] <==> i == 0)
    ensures i == 0 ==> CallersLinked(next, heads[d := next[heads[d]]], callers[d := Dropped(callers[d], i)])
    ensures i > 0 ==> 0 <= callers[d][i - 1] < |next|
    ensures i > 0 ==>
              CallersLinked(next[callers[d][i - 1] := next[callers[d][i]]], heads, callers[d := Dropped(callers[d], i)])
  {
    hide CallersLinked, Segment;
    CallersAt(next, heads, callers, d);
    var l := callers[d];
    ChainRemove(next, heads[d], l, i);
    DroppedLast(l, i);
    var r := Dropped(l, i);
    assert forall x :: x in r ==> x in l;
    if i == 0 {
      CallersOne(next, heads, callers, d, next, next[heads[d]], r);
    } else {
      assert l[i - 1] in l;
      CallersOne(next, heads, callers, d, next[l[i - 1] := next[l[i]]], heads[d], r);
      assert heads[d := heads[d]] == heads;
    }
  }

  lemma SendLinkOf(t: seq<Proc>, p: int)
    requires 0 <= p < |t|
    ensures |SendLinks(t)| == |CallerQs(t)| == |t|
    ensures SendLinks(t)[p] == t[p].p_sendlink && CallerQs(t)[p] == t[p].p_callerq
  {
  }

  lemma NotReady(k: Kernel, p: int)
    requires Lists(k) && Is(k, p) && k.flags[p] != {}
    ensures Nowhere(k.ready, p)
  {
    NotQueued(k.prio, k.flags, k.ready, k.slots.hardware, p);
  }

  lemma NotCalling(k: Kernel, p: int)
    requires Lists(k) && Is(k, p) && SENDING !in k.flags[p]
    ensures Nowhere(k.callers, p)
  {
    forall d | 0 <= d < |k.callers| ensures p !in k.callers[d] {
      assert p in k.callers[d] ==> Sending(k.flags, p);
    }
  }

  /** A walk that comes to a process not sending goes no further. */
  lemma WalkStops(flags: seq<set<Flag>>, sendto: seq<int>, start: int, n: nat, p: int)
    requires Wired(flags, sendto) && 0 <= start < |flags| && Walk(flags, sendto, start, n) == At(p) && SENDING !in flags[p]
    ensures forall m: nat :: m > n ==> Walk(flags, sendto, start, m) == Ended
  {
    forall m: nat | m > n ensures Walk(flags, sendto, start, m) == Ended {
      WalkOn(flags, sendto, start, n, m - n);
    }
  }

  lemma WalkStep(flags: seq<set<Flag>>, sendto: seq<int>, start: int, n: nat, p: int)
    requires Wired(flags, sendto) && 0 <= start < |flags| && Walk(flags, sendto, start, n) == At(p) && SENDING in flags[p]
    ensures Walk(flags, sendto, start, n + 1) == At(sendto[p])
  {
    WalkOn(flags, sendto, start, n, 1);
  }

  lemma WalkZero(flags: seq<set<Flag>>, sendto: seq<int>, p: int)
    requires Wired(flags, sendto) && 0 <= p < |flags|
    ensures Walk(flags, sendto, p, 0) == At(p)
  {
  }

  lemma BlockLines(k: Kernel, p: int, f: set<Flag>)
    requires Is(k, p)
    ensures var r := Block(k, p, f); r.callers == k.callers && r.sendto == k.sendto
  {
  }

  lemma FirstPendingIs(flags: seq<set<Flag>>, from: nat, i: nat)
    requires from <= i <= |flags| && (i < |flags| ==> PENDING in flags[i])
    requires forall j :: from <= j < i ==> PENDING !in flags[j]
    ensures FirstPending(flags, from) == i
  {
  }

  lemma FirstAcceptedIs(l: seq<int>, src: Source, i: nat)
    requires i <= |l| && (i < |l| ==> Accepts(src, l[i]))
    requires forall j :: 0 <= j < i ==> !Accepts(src, l[j])
    ensures FirstAccepted(l, src) == i
  {
  }

  lemma InformReady(k: Kernel)
    requires Almost(k) && MMListens(k)
    ensures var k1 := k.(sigProcs := k.sigProcs - 1);
            && Lists(k1) && Is(k1, k.slots.hardware) && Is(k1, k.slots.mm) && SENDING !in k.flags[k.slots.hardware]
            && MiniSend(k1, k.slots.hardware, k.slots.mm, true).1 == OK
            && Shape(MiniSend(k1, k.slots.hardware, k.slots.mm, true).0)
            && |MiniSend(k1, k.slots.hardware, k.slots.mm, true).0.prio| == |k.prio|
  {
    assert LocalAt(k, k.slots.hardware);
    InformDelivers(k);
    var k1 := k.(sigProcs := k.sigProcs - 1);
    assert CallersOk(k1.flags, k1.sendto, k1.callers);
    CallersAreInTable(k1);
    SendKeepsWired(k1, k.slots.hardware, k.slots.mm, true);
  }

  lemma CoreIsLists(k: Kernel)
    requires Core(k)
    ensures Almost(k) && Lists(k) && Shape(k) && Wired(k.flags, k.sendto) && CallersInTable(k)
  {
    CallersAreInTable(k);
  }

  /** The process whose message is taken is on no ready queue. */
  lemma SenderIsIdle(k: Kernel, p: int, i: nat)
    requires Core(k) && Is(k, p) && i < |k.callers[p]|
    ensures Is(k, k.callers[p][i]) && Nowhere(k.ready, k.callers[p][i])
  {
    CallerIsSending(k, p, i);
    NotReady(k, k.callers[p][i]);
  }

  lemma WaitsNow(k: Kernel, p: int, src: Source)
    requires Core(k) && Real(k, p) && MayReceive(k, p, src) && CallersInTable(k) && WayOf(k, p, src) == Wait
    ensures var w := Block(k.(getfrom := k.getfrom[p := src]), p, {RECEIVING});
            && Shape(w) && w.sigProcs == k.sigProcs && w.slots == k.slots
            && (w.sigProcs > 0 && p == w.slots.mm && src == ANY ==> Almost(w) && MMListens(w))
            && MiniRec(k, p, src) == if w.sigProcs > 0 && p == w.slots.mm && src == ANY then Inform(w) else w
  {
    RecIs(k, p, src);
    WaitKeeps(k, p, src);
    BlockFrame(k.(getfrom := k.getfrom[p := src]), p, {RECEIVING});
    if p == k.slots.mm && src == ANY { WaitingListens(k, p); }
  }

  lemma InvParted(k: Kernel)
    requires Inv(k)
    ensures Core(k) && Lists(k) && Shape(k) && Wired(k.flags, k.sendto) && CallersInTable(k)
  {
    CoreIsLists(k);
  }

  lemma RunningMaySend(k: Kernel, d: int)
    requires Inv(k) && Is(k, k.procPtr) && k.procPtr != k.slots.idle && Is(k, d)
    ensures k.flags[k.procPtr] == {} && Real(k, k.procPtr)
  {
  }

  lemma RunningMayReceive(k: Kernel, other: Source)
    requires Inv(k) && Is(k, k.procPtr) && k.procPtr != k.slots.idle
    ensures Real(k, k.procPtr) && MayReceive(k, k.procPtr, other)
  {
  }

  /** Once its message is accepted the process may go on to receive. */
  lemma BetweenSendAndReceive(k: Kernel, f: Function, other: Source, addressOk: bool)
    requires Inv(k) && TrapAllowed(k, f, other) && f != RECEIVE && other.From? && Is(k, other.slot)
    requires k.prio[k.procPtr] == PPRI_USER ==> f == BOTH
    requires Wired(k.flags, k.sendto)
    ensures var k1 := MiniSend(k, k.procPtr, other.slot, addressOk).0;
            && Shape(k1)
            && (f == BOTH && MiniSend(k, k.procPtr, other.slot, addressOk).1 == OK ==>
                  && Core(k1) && Real(k1, k.procPtr) && MayReceive(k1, k.procPtr, other)
                  && Wired(k1.flags, k1.sendto) && CallersInTable(k1))
  {
    InvParted(k);
    Running(k);
    var p, d := k.procPtr, other.slot;
    SendKeepsWired(k, p, d, addressOk);
    if f == BOTH && MiniSend(k, p, d, addressOk).1 == OK {
      SendRefused(k, p, d, addressOk);
      if k.prio[p] == PPRI_USER { UserMustWait(k, d); }
      hide Almost, MayReceive, MiniSend;
      AfterSend(k, p, d, addressOk);
      SendKeeps(k, p, d, addressOk);
    }
  }

  lemma NotHeldYet(k: Kernel, t: int)
    requires Core(k) && Is(k, t) && !k.intHeld[t]
    ensures t !in k.held
  {
  }

  lemma HeldTail(next: seq<int>, head: int, tail: int, l: seq<int>)
    requires Queue(next, head, tail, l) && l != []
    ensures 0 <= head < |next| && Queue(next, next[head], if next[head] == NIL then NIL else tail, l[1..])
  {
  }

  ghost predicate HeldIndices(k: Kernel) {
    Shape(k) && forall i :: 0 <= i < |k.held| ==> 0 <= k.held[i] < |k.prio|
  }

  lemma HeldInTable(k: Kernel)
    requires Core(k)
    ensures HeldIndices(k)
  {
    UnholdKeeps(k);
  }

  lemma UnholdOne(k: Kernel)
    requires Core(k) && k.held != []
    ensures HeldIndices(k) && Core(ReleaseHeld(k)) && HeldIndices(ReleaseHeld(k))
    ensures ReleaseHeld(k).held == k.held[1..] && Unhold(ReleaseHeld(k)) == Unhold(k)
  {
    HeldInTable(k);
    ReleaseIs(k);
    HeldInTable(ReleaseHeld(k));
  }

  lemma HeldLinkOf(t: seq<Proc>, p: int)
    requires 0 <= p < |t|
    ensures |NextHeld(t)| == |t| && NextHeld(t)[p] == t[p].p_nextheld
  {
  }

  lemma HeldBackIs(k: Kernel, p: int, sig: int)
    requires Is(k, p)
    ensures var b := Block(Recorded(k, p, sig), p, {PENDING, SIG_PENDING});
            Shape(b) && b.sigProcs == k.sigProcs && HeldBack(k, p, sig) == b.(sigProcs := b.sigProcs + 1)
  {
  }

  lemma SignalledIsUser(k: Kernel, p: int)
    requires Core(k) && Is(k, p) && k.prio[p] == PPRI_USER
    ensures p != k.slots.hardware
  {
  }

  lemma SignalledIsIdle(k: Kernel, p: int)
    requires Core(k) && Is(k, p) && k.pendcount[p] > 0
    ensures Nowhere(k.ready, p)
  {
    assert LocalAt(k, p);
    NotReady(k, p);
  }

  lemma FindPidIs(pids: seq<int>, pid: int, i: nat)
    requires i <= |pids| && (i < |pids| ==> pids[i] != 0 && pids[i] == pid)
    requires forall j :: 0 <= j < i ==> !(pids[j] != 0 && pids[j] == pid)
    ensures FindPid(pids, pid) == i
  {
  }

  /** What Unready leaves alone. */
  lemma ExitParts(k: Kernel, p: int)
    requires Lists(k) && Is(k, p)
    ensures var k1 := if k.flags[p] == {} then Unready(k, p) else k;
            && Is(k1, p) && Wired(k1.flags, k1.sendto) && CallersOk(k1.flags, k1.sendto, k1.callers)
            && k1.callers == k.callers && k1.flags == k.flags && k1.sendto == k.sendto
            && k1.slots == k.slots && k1.prio == k.prio && k1.pendcount == k.pendcount && k1.pending == k.pending
  {
  }

  /** A process is in the caller queue of the one it is sending to, and in no other. */
  lemma StaysOut(k: Kernel, p: int)
    requires Is(k, p) && Wired(k.flags, k.sendto) && CallersOk(k.flags, k.sendto, k.callers)
    ensures SENDING !in k.flags[p] ==> LeaveQueue(k, p) == k
    ensures SENDING in k.flags[p] ==> 0 <= k.sendto[p] < |k.callers|
  {
  }

  lemma LeavesOnly(k: Kernel, p: int, d: int)
    requires Is(k, p) && Wired(k.flags, k.sendto) && CallersOk(k.flags, k.sendto, k.callers)
    requires SENDING in k.flags[p] && 0 <= d < |k.callers|
    ensures var r, i := LeaveQueue(k, p), IndexOf(k.callers[d], p);
            && |r.callers| == |k.callers| && r == k.(callers := r.callers)
            && (d != k.sendto[p] ==> i == |k.callers[d]| && r.callers[d] == k.callers[d])
            && (d == k.sendto[p] ==> i < |k.callers[d]| && r.callers == k.callers[d := Dropped(k.callers[d], i)])
  {
  }

  ghost function Cleaned(k: Kernel, p: int): Kernel
    requires 0 <= p < |k.prio| == |k.flags| && |k.pending| == |k.pendcount| == |k.prio|
  {
    k.(pending := k.pending[p := {}], pendcount := k.pendcount[p := 0], flags := k.flags[p := {}],
       prio := k.prio[p := PPRI_NONE])
  }

  lemma ExitIs(k: Kernel, p: int)
    requires Is(k, p) && Wired(k.flags, k.sendto)
    ensures var k1 := if k.flags[p] == {} then Unready(k, p) else k;
            && Is(k1, p) && Wired(k1.flags, k1.sendto)
            && var k2 := LeaveQueue(k1, p);
               && Is(k2, p) && k2.flags == k1.flags && k2.sigProcs == k1.sigProcs
               && Exit(k, p) == Cleaned(if PENDING in k2.flags[p] then k2.(sigProcs := k2.sigProcs - 1) else k2, p)
  {
  }

  // ---------------------------------------------------------------- do_fork

  function Child(parent: Proc, pid: int): Proc {
    parent.(p_flags := parent.p_flags + {NO_MAP} - {PENDING, SIG_PENDING, P_STOP},
            p_pending := {}, p_pendcount := 0, p_pid := pid, group := 0)
  }

  lemma ChildIsNowhere(k: Kernel, parent: int, child: int)
    requires Core(k) && MayFork(k, parent, child)
    ensures Nowhere(k.ready, child) && Nowhere(k.callers, child) && child !in k.held
  {
    NotQueued(k.prio, k.flags, k.ready, k.slots.hardware, child);
    NotCalling(k, child);
  }

  lemma ForkedLinks(t: seq<Proc>, head: seq<int>, tail: seq<int>, hh: int, ht: int, q: Lines, parent: int, child: int, pid: int)
    requires Linked(t, head, tail, hh, ht, q) && 0 <= parent < |t| && 0 <= child < |t| && |q.callers| == |t|
    requires Nowhere(q.ready, child) && Nowhere(q.callers, child) && child !in q.held
    requires q.callers[parent] == [] && q.callers[child] == []
    ensures Linked(t[child := Child(t[parent], pid)], head, tail, hh, ht, q)
  {
  }

  lemma ForkedColumns(t: seq<Proc>, q: Lines, g: Globals, parent: int, child: int, pid: int)
    requires 0 <= parent < |t| && 0 <= child < |t|
    requires var k := Columns(t, q, g); Shape(k) && k.callers[parent] == k.callers[child]
    ensures Columns(t[child := Child(t[parent], pid)], q, g) == Fork(Columns(t, q, g), parent, child, pid)
  {
  }

  /** What the methods ask of their callers. */
  lemma AllowedGives(k: Kernel, op: Op)
    requires Inv(k) && Allowed(k, op)
    ensures match op
            case Trap(f, other, _) => TrapAllowed(k, f, other)
            case Int(t, _) => IsTask(k, t)
            case Flush => true
            case Quantum => true
            case Signal(p, _) => Is(k, p) && k.prio[p] == PPRI_USER
            case SignalDone(p) => Is(k, p)
            case Died(p) => Is(k, p)
            case Mapped(p) => Is(k, p)
            case Forked(parent, child, _) => MayFork(k, parent, child)
            case Grouping(_, _) => true
  {
    match op
    case Forked(parent, child, _) =>
      NotHardware(k, parent);
      assert LocalAt(k, child);
    case _ =>
  }

  // ---------------------------------------------------------------- boot

  lemma ReadyNone(k: Kernel)
    requires Cleared(k)
    ensures Shape(k) && ReadyAll(k, 0) == k
  {
  }

  lemma ReadyNext(k: Kernel, t: nat)
    requires Cleared(k) && t < |k.prio|
    ensures var r := ReadyAll(k, t);
            && Nowhere(r.ready, t) && r.prio == k.prio && r.slots == k.slots
            && ReadyAll(k, t + 1) ==
               if t != k.slots.idle && t != k.slots.hardware && Schedulable(k.prio[t]) then Ready(r, t) else r
  {
    NotYetReady(k, t);
  }

  lemma NotYetReady(k: Kernel, t: nat)
    requires Cleared(k) && t < |k.prio|
    ensures Nowhere(ReadyAll(k, t).ready, t)
  {
    ReadyAllOk(k, t);
    hide ReadyAll;
    var r := ReadyAll(k, t).ready;
    assert forall a :: 0 <= a < NQ ==> t !in r[a];
  }

  lemma FreshTable(prio: seq<Priority>, pids: seq<int>, t: seq<Proc>, slots: Special)
    requires |prio| == |pids| == |t|
    requires forall i :: 0 <= i < |t| ==> t[i] == FreshSlot(prio[i], pids[i])
    ensures var q := Lines([[], [], []], seq(|t|, i => []), []);
            && Linked(t, [NIL, NIL, NIL], [NIL, NIL, NIL], NIL, NIL, q)
            && Columns(t, q, Globals(slots.idle, slots.idle, 0, slots)).prio == prio
            && (var k := Columns(t, q, Globals(slots.idle, slots.idle, 0, slots));
                Shape(k) && Roles(k) ==> Cleared(k))
  {
  }

  function FreshSlot(pr: Priority, pid: int): Proc {
    Proc(pr, {}, ANY, 0, false, false, {}, 0, pid, 0, NIL, NIL, NIL, NIL)
  }

  lemma LinkedSame(t: seq<Proc>, p: int, r: Proc, head: seq<int>, tail: seq<int>, hh: int, ht: int, q: Lines)
    requires 0 <= p < |t| && SameLinks(t[p], r) && Linked(t, head, tail, hh, ht, q)
    ensures Linked(t[p := r], head, tail, hh, ht, q)
  {
  }
}
