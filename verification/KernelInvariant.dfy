/** What holds of the kernel between any two operations. Each part names the columns it reads. */
module KernelInvariant {
  import opened Chains
  import opened KernelSpec
  import opened SendGraph
  import opened UserQueue

  // ---------------------------------------------------------------- ready queues

  predicate Schedulable(pr: Priority) {
    pr == PPRI_TASK || pr == PPRI_SERVER || pr == PPRI_USER
  }

  ghost predicate Runnable(prio: seq<Priority>, flags: seq<set<Flag>>, hardware: int, p: int)
    requires |flags| == |prio|
  {
    0 <= p < |prio| && p != hardware && Schedulable(prio[p]) && flags[p] == {}
  }

  /** A process is on the ready queue of its class, once, exactly when no flag holds it back. */
  ghost predicate ReadyOk(prio: seq<Priority>, flags: seq<set<Flag>>, ready: seq<seq<int>>, hardware: int) {
    && |flags| == |prio| && |ready| == NQ
    && (forall q :: 0 <= q < NQ ==> Distinct(ready[q]))
    && (forall q, p :: 0 <= q < NQ && p in ready[q] ==> Runnable(prio, flags, hardware, p) && QueueOf(prio[p]) == q)
    && (forall p :: Runnable(prio, flags, hardware, p) ==> p in ready[QueueOf(prio[p])])
  }

  lemma DroppedMembers(q: seq<int>, i: nat)
    requires Distinct(q) && i < |q|
    ensures Distinct(Dropped(q, i))
    ensures forall x :: x in Dropped(q, i) <==> x in q && x != q[i]
  {
  }

  /** Unready takes p, and nothing else, off its queue. */
  lemma UnreadyTakes(k: Kernel, p: int)
    requires Is(k, p) && ReadyOk(k.prio, k.flags, k.ready, k.slots.hardware)
    ensures var r, q := Unready(k, p).ready, QueueOf(k.prio[p]);
            && |r| == NQ && Distinct(r[q]) && (forall j :: 0 <= j < NQ && j != q ==> r[j] == k.ready[j])
            && (forall x :: x in r[q] <==> x in k.ready[q] && x != p)
            && (forall j, x :: 0 <= j < NQ ==> (x in r[j] <==> x in k.ready[j] && x != p))
  {
  }

  lemma NotQueued(prio: seq<Priority>, flags: seq<set<Flag>>, ready: seq<seq<int>>, hw: int, p: int)
    requires ReadyOk(prio, flags, ready, hw) && !Runnable(prio, flags, hw, p)
    ensures forall q :: 0 <= q < NQ ==> p !in ready[q]
  {
  }

  /** p stops being runnable and leaves its queue. */
  lemma ReadyLess(prio: seq<Priority>, flags: seq<set<Flag>>, ready: seq<seq<int>>, hw: int, p: int,
                  prio': seq<Priority>, flags': seq<set<Flag>>, ready': seq<seq<int>>)
    requires ReadyOk(prio, flags, ready, hw) && |prio'| == |flags'| == |prio| && |ready'| == NQ
    requires forall x :: 0 <= x < |prio| && x != p ==> prio'[x] == prio[x] && flags'[x] == flags[x]
    requires !Runnable(prio', flags', hw, p)
    requires forall q :: 0 <= q < NQ ==> Distinct(ready'[q])
    requires forall q, x :: 0 <= q < NQ ==> (x in ready'[q] <==> x in ready[q] && x != p)
    ensures ReadyOk(prio', flags', ready', hw)
  {
    forall q, x | 0 <= q < NQ && x in ready'[q] ensures Runnable(prio', flags', hw, x) && QueueOf(prio'[x]) == q {
      assert x in ready[q];
      assert Runnable(prio, flags, hw, x);
    }
    forall x | Runnable(prio', flags', hw, x) ensures x in ready'[QueueOf(prio'[x])] {
      assert Runnable(prio, flags, hw, x);
      assert x in ready[QueueOf(prio[x])];
    }
  }

  lemma BlockReady(k: Kernel, p: int, f: set<Flag>)
    requires Is(k, p) && ReadyOk(k.prio, k.flags, k.ready, k.slots.hardware) && f != {}
    ensures var r := Block(k, p, f); ReadyOk(r.prio, r.flags, r.ready, r.slots.hardware)
  {
    var r := Block(k, p, f);
    assert r.flags[p] != {} by { var x :| x in f; assert x in r.flags[p]; }
    if k.flags[p] == {} {
      UnreadyTakes(k, p);
    } else {
      NotQueued(k.prio, k.flags, k.ready, k.slots.hardware, p);
    }
    hide Unready;
    ReadyLess(k.prio, k.flags, k.ready, k.slots.hardware, p, r.prio, r.flags, r.ready);
  }

  lemma ReadyAdds(k: Kernel, p: int)
    requires Is(k, p) && ReadyOk(k.prio, k.flags, k.ready, k.slots.hardware)
    requires p !in k.ready[QueueOf(k.prio[p])]
    ensures var r, q := Ready(k, p).ready, QueueOf(k.prio[p]);
            && |r| == NQ && Distinct(r[q]) && (forall j :: 0 <= j < NQ && j != q ==> r[j] == k.ready[j])
            && (forall x :: x in r[q] <==> x in k.ready[q] || x == p)
  {
  }

  /** Clearing a flag of a blocked process. */
  lemma UnblockReady(k: Kernel, p: int, f: Flag)
    requires Is(k, p) && ReadyOk(k.prio, k.flags, k.ready, k.slots.hardware)
    requires k.flags[p] != {} && p != k.slots.hardware && Schedulable(k.prio[p])
    ensures var r := Unblock(k, p, f); ReadyOk(r.prio, r.flags, r.ready, r.slots.hardware)
  {
    ReadyAdds(k, p);
    var flags := k.flags[p := k.flags[p] - {f}];
    if flags[p] == {} {
      ReadyMore(k.prio, k.flags, k.ready, k.slots.hardware, p, flags, Ready(k, p).ready);
    } else {
      assert forall x :: Runnable(k.prio, flags, k.slots.hardware, x) <==> Runnable(k.prio, k.flags, k.slots.hardware, x);
    }
  }

  lemma ReadyMore(prio: seq<Priority>, flags: seq<set<Flag>>, ready: seq<seq<int>>, hw: int, p: int,
                  flags': seq<set<Flag>>, ready': seq<seq<int>>)
    requires ReadyOk(prio, flags, ready, hw) && 0 <= p < |prio| && flags' == flags[p := {}] && |ready'| == NQ
    requires p != hw && Schedulable(prio[p])
    requires var q := QueueOf(prio[p]);
             && Distinct(ready'[q]) && (forall j :: 0 <= j < NQ && j != q ==> ready'[j] == ready[j])
             && (forall x :: x in ready'[q] <==> x in ready[q] || x == p)
    ensures ReadyOk(prio, flags', ready', hw)
  {
  }

  // ---------------------------------------------------------------- the process now running

  ghost predicate Current(k: Kernel) {
    |k.ready| == NQ && k.procPtr == Picked(k.ready, k.slots.idle)
  }

  lemma UnreadyCurrent(k: Kernel, p: int)
    requires Is(k, p) && Current(k)
    ensures Current(Unready(k, p))
  {
  }

  /** Only a task, or a server with users, may be made ready without picking anew. */
  lemma ReadyCurrent(k: Kernel, p: int)
    requires Is(k, p) && Current(k)
    requires k.ready[TASK_Q] != [] || QueueOf(k.prio[p]) == TASK_Q || k.ready[SERVER_Q] != []
    ensures Current(Ready(k, p))
  {
  }

  // ---------------------------------------------------------------- caller queues

  ghost predicate Sending(flags: seq<set<Flag>>, p: int) {
    0 <= p < |flags| && SENDING in flags[p]
  }

  /** A process is on a caller queue, once, exactly when it is sending to that queue's owner. */
  ghost predicate CallersOk(flags: seq<set<Flag>>, sendto: seq<int>, callers: seq<seq<int>>) {
    && Wired(flags, sendto) && |callers| == |flags|
    && (forall d :: 0 <= d < |callers| ==> Distinct(callers[d]))
    && (forall d, p :: 0 <= d < |callers| && p in callers[d] ==> Sending(flags, p) && sendto[p] == d)
    && (forall p :: Sending(flags, p) ==> p in callers[sendto[p]])
  }

  /** Only these processes, of all, start or stop sending. */
  ghost predicate SameSenders(flags: seq<set<Flag>>, flags': seq<set<Flag>>, but: set<int>) {
    |flags'| == |flags| && forall p :: p !in but ==> (Sending(flags', p) <==> Sending(flags, p))
  }

  lemma CallersSame(flags: seq<set<Flag>>, sendto: seq<int>, callers: seq<seq<int>>, flags': seq<set<Flag>>)
    requires CallersOk(flags, sendto, callers) && SameSenders(flags, flags', {})
    ensures CallersOk(flags', sendto, callers)
  {
  }

  lemma CallersEnqueue(flags: seq<set<Flag>>, sendto: seq<int>, callers: seq<seq<int>>, flags': seq<set<Flag>>, c: int, d: int)
    requires CallersOk(flags, sendto, callers) && 0 <= c < |flags| && 0 <= d < |flags|
    requires !Sending(flags, c) && SameSenders(flags, flags', {c}) && Sending(flags', c)
    ensures CallersOk(flags', sendto[c := d], callers[d := callers[d] + [c]])
  {
    var st, cs := sendto[c := d], callers[d := callers[d] + [c]];
    assert c !in callers[d];
    forall p | 0 <= p < |flags'| && SENDING in flags'[p] ensures 0 <= st[p] < |flags'| {
      assert Sending(flags', p);
    }
    assert cs[d] == callers[d] + [c] && Distinct(cs[d]);
    forall e, p | 0 <= e < |cs| && p in cs[e] ensures Sending(flags', p) && st[p] == e {
      assert p in callers[e] || (e == d && p == c);
    }
    forall p | Sending(flags', p) ensures p in cs[st[p]] {
      assert cs[d][|callers[d]|] == c;
      if p != c { assert p in callers[sendto[p]]; }
    }
  }

  lemma CallersDequeue(flags: seq<set<Flag>>, sendto: seq<int>, callers: seq<seq<int>>, flags': seq<set<Flag>>, d: int, i: nat)
    requires CallersOk(flags, sendto, callers) && 0 <= d < |flags| && i < |callers[d]|
    requires !Sending(flags', callers[d][i]) && SameSenders(flags, flags', {callers[d][i]})
    ensures CallersOk(flags', sendto, callers[d := Dropped(callers[d], i)])
  {
    var c, cs := callers[d][i], callers[d := Dropped(callers[d], i)];
    DroppedMembers(callers[d], i);
    assert c in callers[d];
    forall p | 0 <= p < |flags'| && SENDING in flags'[p] ensures 0 <= sendto[p] < |flags'| {
      assert Sending(flags', p);
    }
    forall e, p | 0 <= e < |cs| && p in cs[e] ensures p in callers[e] && p != c {
      if e != d { assert p in callers[e]; assert Sending(flags, p) && sendto[p] == e; }
    }
    forall p | Sending(flags', p) ensures p in cs[sendto[p]] {
      assert p in callers[sendto[p]];
    }
  }

  // ---------------------------------------------------------------- one process by itself

  /** What a process's own fields say, whatever the others do. */
  ghost predicate LocalOk(pr: Priority, flags: set<Flag>, getfrom: Source, sendto: int, pending: set<int>, pendcount: nat,
                          group: int, hardware: bool) {
    && (!Schedulable(pr) || hardware ==> flags == {})
    && (pr == PPRI_TASK || pr == PPRI_SERVER ==> flags <= {SENDING, RECEIVING})
    && (SENDING in flags && RECEIVING in flags ==> getfrom == From(sendto))
    && 0 <= group < GROUPS
    && SigOk(flags, pending, pendcount)
  }

  /** p_pendcount counts the signals pending and those MM has been told of but not finished; while
      it is not zero SIG_PENDING holds the process back. */
  ghost predicate SigOk(flags: set<Flag>, pending: set<int>, pendcount: nat) {
    && (PENDING in flags <==> pending != {})
    && (SIG_PENDING in flags <==> pendcount > 0)
    && |pending| <= pendcount
  }

  ghost predicate LocalAt(k: Kernel, p: int)
    requires Is(k, p)
  {
    LocalOk(k.prio[p], k.flags[p], k.getfrom[p], k.sendto[p], k.pending[p], k.pendcount[p], k.group[p], p == k.slots.hardware)
  }

  /** Users only ever send in order to receive the answer: between operations no user is sending
      without receiving. */
  ghost predicate UsersSendrec(k: Kernel)
    requires Shape(k)
  {
    forall p :: 0 <= p < |k.prio| && k.prio[p] == PPRI_USER && SENDING in k.flags[p] ==> RECEIVING in k.flags[p]
  }

  // ---------------------------------------------------------------- nothing is missed

  /** Nobody waits in a caller queue whose owner is waiting for it. */
  ghost predicate NoMissedMessage(k: Kernel)
    requires Shape(k) && Wired(k.flags, k.sendto)
  {
    forall p :: 0 <= p < |k.flags| && SENDING in k.flags[p] ==>
      !WaitsFor(k.flags[k.sendto[p]], k.getfrom[k.sendto[p]], p)
  }

  /** No interrupt is on record against a process that is waiting for one. */
  ghost predicate NoMissedInterrupt(k: Kernel)
    requires Shape(k)
  {
    forall p :: 0 <= p < |k.flags| && k.intBlocked[p] ==> !WaitsFor(k.flags[p], k.getfrom[p], k.slots.hardware)
  }

  ghost predicate MMListens(k: Kernel)
    requires Shape(k)
  {
    RECEIVING in k.flags[k.slots.mm] && k.getfrom[k.slots.mm] == ANY
  }

  /** MM is never left waiting for work while there is a signal to tell it about. */
  ghost predicate NoMissedSignal(k: Kernel)
    requires Shape(k)
  {
    MMListens(k) ==> forall p :: 0 <= p < |k.flags| ==> PENDING !in k.flags[p]
  }

  function CountPending(flags: seq<set<Flag>>): nat {
    if flags == [] then 0
    else CountPending(flags[..|flags| - 1]) + if PENDING in flags[|flags| - 1] then 1 else 0
  }

  lemma {:induction false} CountUpdate(flags: seq<set<Flag>>, p: nat, f: set<Flag>)
    requires p < |flags|
    ensures CountPending(flags[p := f]) == CountPending(flags)
            - (if PENDING in flags[p] then 1 else 0) + (if PENDING in f then 1 else 0)
  {
    var m := |flags| - 1;
    if p < m {
      CountUpdate(flags[..m], p, f);
      assert flags[p := f][..m] == flags[..m][p := f];
    } else {
      assert flags[p := f][..m] == flags[..m];
    }
  }

  lemma {:induction false} CountZero(flags: seq<set<Flag>>)
    ensures CountPending(flags) == 0 <==> forall p :: 0 <= p < |flags| ==> PENDING !in flags[p]
  {
    if flags != [] { CountZero(flags[..|flags| - 1]); }
  }

  /** The kernel's own slots. */
  ghost predicate Roles(k: Kernel)
    requires Shape(k)
  {
    && k.prio[k.slots.hardware] == PPRI_TASK && k.prio[k.slots.idle] == PPRI_IDLE
    && k.prio[k.slots.mm] == PPRI_SERVER && k.prio[k.slots.fs] == PPRI_SERVER
    && forall p :: 0 <= p < |k.prio| && k.prio[p] == PPRI_USER ==> p > k.slots.mm
  }

  ghost predicate HeldOk(k: Kernel)
    requires Shape(k)
  {
    && Distinct(k.held)
    && (forall p :: p in k.held ==> 0 <= p < |k.prio| && k.prio[p] == PPRI_TASK && p != k.slots.hardware)
    && (forall p :: 0 <= p < |k.prio| ==> (k.intHeld[p] <==> p in k.held))
  }

  /** The lists and links of the process table. */
  ghost predicate Lists(k: Kernel) {
    && Shape(k) && Wired(k.flags, k.sendto) && Roles(k)
    && ReadyOk(k.prio, k.flags, k.ready, k.slots.hardware)
    && CallersOk(k.flags, k.sendto, k.callers)
    && Acyclic(k.flags, k.sendto)
    && HeldOk(k)
  }

  /** All of it, but for what an operation suspends halfway. */
  ghost predicate Almost(k: Kernel) {
    && Lists(k)
    && (forall p :: 0 <= p < |k.prio| ==> LocalAt(k, p))
    && NoMissedMessage(k) && NoMissedInterrupt(k)
    && k.sigProcs == CountPending(k.flags)
  }

  ghost predicate Core(k: Kernel) {
    Almost(k) && NoMissedSignal(k)
  }

  /** The invariant between operations. */
  ghost predicate Inv(k: Kernel) {
    Core(k) && UsersSendrec(k) && Current(k)
  }
}
