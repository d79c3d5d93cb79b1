/** The process table of scheduling/src/kernel/proc.h: an array of struct proc, threaded by the
    ready queues (p_nextready), the caller queues (p_sendlink) and the held interrupts
    (p_nextheld). Pointers are slot numbers. Each lemma is about one change of links, on values. */
module ProcTable {
  import opened Chains
  import opened KernelSpec

  const NIL_PROC := NIL

  datatype Proc = Proc(
    p_priority: Priority, p_flags: set<Flag>, p_getfrom: Source, p_sendto: int,
    p_int_blocked: bool, p_int_held: bool, p_pending: set<int>, p_pendcount: nat,
    p_pid: int, group: int,
    p_nextready: int, p_callerq: int, p_sendlink: int, p_nextheld: int)

  /** The queues a table's links stand for. */
  datatype Lines = Lines(ready: seq<seq<int>>, callers: seq<seq<int>>, held: seq<int>)

  /** The kernel's variables beside the table. */
  datatype Globals = Globals(procPtr: int, billPtr: int, sigProcs: int, slots: Special)

  /** The table and its queues, column by column. */
  ghost function Columns(t: seq<Proc>, q: Lines, g: Globals): Kernel {
    var n := |t|;
    Kernel(seq(n, i requires 0 <= i < n => t[i].p_priority), seq(n, i requires 0 <= i < n => t[i].p_flags),
           seq(n, i requires 0 <= i < n => t[i].p_getfrom), seq(n, i requires 0 <= i < n => t[i].p_sendto),
           seq(n, i requires 0 <= i < n => t[i].p_int_blocked), seq(n, i requires 0 <= i < n => t[i].p_int_held),
           seq(n, i requires 0 <= i < n => t[i].p_pending), seq(n, i requires 0 <= i < n => t[i].p_pendcount),
           seq(n, i requires 0 <= i < n => t[i].p_pid), seq(n, i requires 0 <= i < n => t[i].group),
           q.callers, q.ready, q.held, g.procPtr, g.billPtr, g.sigProcs, g.slots)
  }

  ghost function NextReady(t: seq<Proc>): (next: seq<int>)
    ensures |next| == |t| && forall i :: 0 <= i < |t| ==> next[i] == t[i].p_nextready
  {
    seq(|t|, i requires 0 <= i < |t| => t[i].p_nextready)
  }

  ghost function SendLinks(t: seq<Proc>): (next: seq<int>)
    ensures |next| == |t| && forall i :: 0 <= i < |t| ==> next[i] == t[i].p_sendlink
  {
    seq(|t|, i requires 0 <= i < |t| => t[i].p_sendlink)
  }

  ghost function NextHeld(t: seq<Proc>): (next: seq<int>)
    ensures |next| == |t| && forall i :: 0 <= i < |t| ==> next[i] == t[i].p_nextheld
  {
    seq(|t|, i requires 0 <= i < |t| => t[i].p_nextheld)
  }

  // ---------------------------------------------------------------- assigning one field

  ghost predicate RowFits(k: Kernel, p: int) {
    && 0 <= p < |k.prio| == |k.flags| == |k.getfrom| == |k.sendto| == |k.intBlocked| == |k.intHeld|
    && |k.prio| == |k.pending| == |k.pendcount| == |k.pid| == |k.group|
  }

  /** The columns with the fields of r for process p. */
  ghost function WithRow(k: Kernel, p: int, r: Proc): Kernel
    requires RowFits(k, p)
  {
    k.(prio := k.prio[p := r.p_priority], flags := k.flags[p := r.p_flags],
       getfrom := k.getfrom[p := r.p_getfrom], sendto := k.sendto[p := r.p_sendto],
       intBlocked := k.intBlocked[p := r.p_int_blocked], intHeld := k.intHeld[p := r.p_int_held],
       pending := k.pending[p := r.p_pending], pendcount := k.pendcount[p := r.p_pendcount],
       pid := k.pid[p := r.p_pid], group := k.group[p := r.group])
  }

  /** A slot replaced: every column changes there, if anywhere. */
  lemma Replaced(t: seq<Proc>, q: Lines, g: Globals, p: int, r: Proc)
    requires 0 <= p < |t|
    ensures RowFits(Columns(t, q, g), p) && Columns(t[p := r], q, g) == WithRow(Columns(t, q, g), p, r)
    ensures NextReady(t[p := r]) == NextReady(t)[p := r.p_nextready]
    ensures SendLinks(t[p := r]) == SendLinks(t)[p := r.p_sendlink]
    ensures NextHeld(t[p := r]) == NextHeld(t)[p := r.p_nextheld]
  {
    var k, k2 := Columns(t, q, g), Columns(t[p := r], q, g);
    assert k2.prio == k.prio[p := r.p_priority];
    assert k2.flags == k.flags[p := r.p_flags];
    assert k2.getfrom == k.getfrom[p := r.p_getfrom];
    assert k2.sendto == k.sendto[p := r.p_sendto];
    assert k2.intBlocked == k.intBlocked[p := r.p_int_blocked];
    assert k2.intHeld == k.intHeld[p := r.p_int_held];
    assert k2.pending == k.pending[p := r.p_pending];
    assert k2.pendcount == k.pendcount[p := r.p_pendcount];
    assert k2.pid == k.pid[p := r.p_pid];
    assert k2.group == k.group[p := r.group];
  }

  /** Only these fields are links; the rest of a slot can be assigned without touching any queue. */
  predicate SameLinks(a: Proc, b: Proc) {
    && a.p_nextready == b.p_nextready && a.p_callerq == b.p_callerq
    && a.p_sendlink == b.p_sendlink && a.p_nextheld == b.p_nextheld
  }

  predicate SameFields(a: Proc, b: Proc) {
    a.(p_nextready := b.p_nextready, p_callerq := b.p_callerq, p_sendlink := b.p_sendlink, p_nextheld := b.p_nextheld) == b
  }

  lemma SameColumns(t: seq<Proc>, q: Lines, g: Globals, p: int)
    requires 0 <= p < |t|
    ensures RowFits(Columns(t, q, g), p) && WithRow(Columns(t, q, g), p, t[p]) == Columns(t, q, g)
  {
  }

  lemma AssignedLinks(t: seq<Proc>, q: Lines, g: Globals, p: int, r: Proc)
    requires 0 <= p < |t| && SameFields(t[p], r)
    ensures Columns(t[p := r], q, g) == Columns(t, q, g)
    ensures NextReady(t[p := r]) == NextReady(t)[p := r.p_nextready]
    ensures SendLinks(t[p := r]) == SendLinks(t)[p := r.p_sendlink]
    ensures NextHeld(t[p := r]) == NextHeld(t)[p := r.p_nextheld]
    ensures CallerQs(t[p := r]) == CallerQs(t)[p := r.p_callerq]
    ensures r.p_nextready == t[p].p_nextready ==> NextReady(t[p := r]) == NextReady(t)
    ensures r.p_sendlink == t[p].p_sendlink ==> SendLinks(t[p := r]) == SendLinks(t)
    ensures r.p_nextheld == t[p].p_nextheld ==> NextHeld(t[p := r]) == NextHeld(t)
    ensures r.p_callerq == t[p].p_callerq ==> CallerQs(t[p := r]) == CallerQs(t)
  {
    Replaced(t, q, g, p, r);
    SameColumns(t, q, g, p);
  }

  ghost function CallerQs(t: seq<Proc>): (heads: seq<int>)
    ensures |heads| == |t| && forall i :: 0 <= i < |t| ==> heads[i] == t[i].p_callerq
  {
    seq(|t|, i requires 0 <= i < |t| => t[i].p_callerq)
  }

  // ---------------------------------------------------------------- ready queues

  function Last(l: seq<int>): int
    requires l != []
  {
    l[|l| - 1]
  }

  /** One queue: its links lead from head to tail. The tail pointer of an empty queue is stale. */
  ghost predicate Queue(next: seq<int>, head: int, tail: int, l: seq<int>) {
    Chain(next, head, l) && Distinct(l) && (l != [] ==> tail == Last(l))
  }

  ghost predicate ReadyLinked(next: seq<int>, head: seq<int>, tail: seq<int>, ready: seq<seq<int>>) {
    && |head| == |tail| == |ready| == NQ && Separate(ready)
    && forall q :: 0 <= q < NQ ==> Queue(next, head[q], tail[q], ready[q])
  }

  /** Queue q alone is relinked. */
  lemma ReadyOne(next: seq<int>, head: seq<int>, tail: seq<int>, ready: seq<seq<int>>, q: int,
                 next': seq<int>, h: int, w: int, l: seq<int>)
    requires ReadyLinked(next, head, tail, ready) && 0 <= q < NQ && Queue(next', h, w, l) && |next'| == |next|
    requires forall x :: x in l ==> x in ready[q] || Nowhere(ready, x)
    requires forall i :: 0 <= i < |next| && next'[i] != next[i] ==> i in ready[q] || Nowhere(ready, i)
    ensures ReadyLinked(next', head[q := h], tail[q := w], ready[q := l])
  {
    forall a | 0 <= a < NQ && a != q ensures Queue(next', head[a], tail[a], ready[a]) {
      forall i | 0 <= i < |ready[a]| ensures next'[ready[a][i]] == next[ready[a][i]] {
        assert ready[a][i] in ready[a];
      }
      SegmentFrame(next, next', ready[a], NIL);
    }
  }

  lemma QueueAppend(next: seq<int>, head: int, tail: int, l: seq<int>, p: int)
    requires Queue(next, head, tail, l) && 0 <= p < |next| && p !in l
    ensures l != [] ==> 0 <= tail < |next| && tail in l && Queue(next[tail := p][p := NIL], head, p, l + [p])
    ensures l == [] ==> head == NIL && Queue(next[p := NIL], p, p, l + [p])
  {
    if l == [] {
      SegmentOne(next[p := NIL], p, NIL);
      assert [] + [p] == [p];
    } else {
      ChainAppend(next, head, l, p);
      assert next[tail := p][p := NIL] == next[p := NIL][tail := p];
    }
  }

  lemma QueuePush(next: seq<int>, head: int, tail: int, l: seq<int>, p: int)
    requires Queue(next, head, tail, l) && 0 <= p < |next| && p !in l
    ensures Queue(next[p := head], p, if l == [] then p else tail, [p] + l)
  {
    ChainPush(next, head, l, p);
  }

  /** Taking out the entry after xp, or the head: the tail pointer follows if the last went. */
  lemma QueueDrop(next: seq<int>, head: int, tail: int, l: seq<int>, i: nat)
    requires Queue(next, head, tail, l) && i < |l|
    ensures 0 <= l[i] < |next|
    ensures i == 0 ==> head == l[i] && Queue(next, next[l[i]], tail, Dropped(l, i))
    ensures i > 0 ==> 0 <= l[i - 1] < |next| && next[l[i - 1]] == l[i] && head != l[i]
                      && Queue(next[l[i - 1] := next[l[i]]], head, if tail == l[i] then l[i - 1] else tail, Dropped(l, i))
  {
    ChainRemove(next, head, l, i);
    DroppedLast(l, i);
    if i > 0 { QueueNode(next, head, tail, l, i - 1); }
    hide Segment, Distinct;
  }

  lemma DroppedLast(l: seq<int>, i: nat)
    requires Distinct(l) && i < |l|
    ensures var r := Dropped(l, i);
            && r == Without(l, i) && Distinct(r) && (r == [] <==> |l| == 1)
            && (r != [] ==> Last(r) == if i + 1 == |l| then l[i - 1] else Last(l))
            && (Last(l) == l[i] <==> i + 1 == |l|)
  {
    var r := Dropped(l, i);
    assert forall j :: 0 <= j < |r| ==> r[j] == l[if j < i then j else j + 1];
  }

  /** Following the links of a queue. */
  lemma QueueNode(next: seq<int>, head: int, tail: int, l: seq<int>, i: nat)
    requires Queue(next, head, tail, l) && i < |l|
    ensures 0 <= l[i] < |next| && next[l[i]] == After(l, i, NIL) && (next[l[i]] == NIL <==> i + 1 == |l|)
    ensures head == l[0]
  {
    if i + 1 < |l| { assert 0 <= l[i + 1]; }
  }

  lemma QueueHead(next: seq<int>, head: int, tail: int, l: seq<int>)
    requires Queue(next, head, tail, l)
    ensures head == First(l, NIL) && (head == NIL <==> l == [])
    ensures l != [] ==> 0 <= head < |next| && 0 <= tail < |next| && tail == Last(l)
  {
  }

  // ---------------------------------------------------------------- caller queues

  ghost predicate CallersLinked(next: seq<int>, heads: seq<int>, callers: seq<seq<int>>) {
    && |next| == |heads| == |callers| && Separate(callers)
    && forall d :: 0 <= d < |callers| ==> Chain(next, heads[d], callers[d]) && Distinct(callers[d])
  }

  lemma CallersOne(next: seq<int>, heads: seq<int>, callers: seq<seq<int>>, d: int, next': seq<int>, h: int, l: seq<int>)
    requires CallersLinked(next, heads, callers) && 0 <= d < |callers| && |next'| == |next|
    requires Chain(next', h, l) && Distinct(l)
    requires forall x :: x in l ==> x in callers[d] || Nowhere(callers, x)
    requires forall i :: 0 <= i < |next| && next'[i] != next[i] ==> i in callers[d] || Nowhere(callers, i)
    ensures CallersLinked(next', heads[d := h], callers[d := l])
  {
    forall a | 0 <= a < |callers| && a != d ensures Chain(next', heads[a], callers[a]) {
      forall i | 0 <= i < |callers[a]| ensures next'[callers[a][i]] == next[callers[a][i]] {
        assert callers[a][i] in callers[a];
      }
      SegmentFrame(next, next', callers[a], NIL);
    }
  }
}
