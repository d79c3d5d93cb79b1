/** The kernel itself: proc.c and the requests of system.c that change flags or queues, as methods
    that update the process table in place, each proved to do what KernelSpec says. */
module KernelMachine {
  import opened Chains
  import opened UserQueue
  import opened KernelSpec
  import opened SendGraph
  import opened KernelInvariant
  import opened KernelSteps
  import opened KernelSignals
  import opened KernelRuns
  import opened KernelTurns
  import opened ProcTable
  import opened KernelLinks

  class Machine {
    const proc: array<Proc>
    const rdy_head: array<int>
    const rdy_tail: array<int>
    const slots: Special
    var held_head: int
    var held_tail: int
    var proc_ptr: int
    var bill_ptr: int
    var sig_procs: int
    ghost var lines: Lines

    ghost predicate Valid()
      reads this, proc, rdy_head, rdy_tail
    {
      && rdy_head != rdy_tail && rdy_head.Length == rdy_tail.Length == NQ
      && Linked(proc[..], rdy_head[..], rdy_tail[..], held_head, held_tail, lines)
    }

    /** The state of the kernel as a value. */
    ghost function K(): Kernel
      reads this, proc
    {
      Columns(proc[..], lines, Globals(proc_ptr, bill_ptr, sig_procs, slots))
    }

    /** A table of idle slots with these priorities and process ids; no queue in use. */
    constructor (prio: seq<Priority>, pids: seq<int>, slots: Special)
      requires |prio| == |pids|
      ensures Valid() && fresh(proc) && fresh(rdy_head) && fresh(rdy_tail) && proc.Length == |prio|
      ensures K().prio == prio && K().slots == slots && (Shape(K()) && Roles(K()) ==> Cleared(K()))
    {
      proc := new Proc[|prio|](i requires 0 <= i < |prio| => FreshSlot(prio[i], pids[i]));
      rdy_head := new int[NQ](_ => NIL_PROC);
      rdy_tail := new int[NQ](_ => NIL_PROC);
      this.slots := slots;
      held_head := NIL_PROC;
      held_tail := NIL_PROC;
      proc_ptr := slots.idle;
      bill_ptr := slots.idle;
      sig_procs := 0;
      lines := Lines([[], [], []], seq(|prio|, i => []), []);
      new;
      hide Linked, Columns;
      FreshTable(prio, pids, proc[..], slots);
      assert rdy_head[..] == [NIL, NIL, NIL] && rdy_tail[..] == [NIL, NIL, NIL];
    }

    // -------------------------------------------------------------- assignments to a slot

    /** The fields of a slot that are not links take new values. */
    method Assign(p: int, r: Proc)
      requires Valid() && 0 <= p < proc.Length && SameLinks(proc[p], r)
      modifies proc
      ensures Valid() && proc[..] == old(proc[..])[p := r]
      ensures RowFits(old(K()), p) && K() == WithRow(old(K()), p, r)
      ensures WithRow(old(K()), p, old(proc[p])) == old(K())
    {
      hide Linked;
      ghost var t, g := proc[..], Globals(proc_ptr, bill_ptr, sig_procs, slots);
      proc[p] := r;
      assert proc[..] == t[p := r];
      Replaced(t, lines, g, p, r);
      SameColumns(t, lines, g, p);
      LinkedSame(t, p, r, rdy_head[..], rdy_tail[..], held_head, held_tail, lines);
    }

    method SetFlags(p: int, f: set<Flag>)
      requires Valid() && 0 <= p < proc.Length
      modifies proc
      ensures Valid() && |old(K()).flags| == proc.Length && K() == var k := old(K()); k.(flags := k.flags[p := f])
    {
      Assign(p, proc[p].(p_flags := f));
    }

    method SetGetfrom(p: int, src: Source)
      requires Valid() && 0 <= p < proc.Length
      modifies proc
      ensures Valid() && |old(K()).getfrom| == proc.Length && K() == var k := old(K()); k.(getfrom := k.getfrom[p := src])
    {
      Assign(p, proc[p].(p_getfrom := src));
    }

    method SetSendto(p: int, d: int)
      requires Valid() && 0 <= p < proc.Length
      modifies proc
      ensures Valid() && |old(K()).sendto| == proc.Length && K() == var k := old(K()); k.(sendto := k.sendto[p := d])
    {
      Assign(p, proc[p].(p_sendto := d));
    }

    method SetIntBlocked(p: int, b: bool)
      requires Valid() && 0 <= p < proc.Length
      modifies proc
      ensures Valid() && |old(K()).intBlocked| == proc.Length && K() == var k := old(K()); k.(intBlocked := k.intBlocked[p := b])
    {
      Assign(p, proc[p].(p_int_blocked := b));
    }

    method SetIntHeld(p: int, b: bool)
      requires Valid() && 0 <= p < proc.Length
      modifies proc
      ensures Valid() && |old(K()).intHeld| == proc.Length && K() == var k := old(K()); k.(intHeld := k.intHeld[p := b])
    {
      Assign(p, proc[p].(p_int_held := b));
    }

    method SetPriority(p: int, pr: Priority)
      requires Valid() && 0 <= p < proc.Length
      modifies proc
      ensures Valid() && |old(K()).prio| == proc.Length && K() == var k := old(K()); k.(prio := k.prio[p := pr])
    {
      Assign(p, proc[p].(p_priority := pr));
    }

    method SetPending(p: int, sigs: set<int>)
      requires Valid() && 0 <= p < proc.Length
      modifies proc
      ensures Valid() && |old(K()).pending| == proc.Length && K() == var k := old(K()); k.(pending := k.pending[p := sigs])
    {
      Assign(p, proc[p].(p_pending := sigs));
    }

    method SetPendcount(p: int, c: nat)
      requires Valid() && 0 <= p < proc.Length
      modifies proc
      ensures Valid() && |old(K()).pendcount| == proc.Length && K() == var k := old(K()); k.(pendcount := k.pendcount[p := c])
    {
      Assign(p, proc[p].(p_pendcount := c));
    }

    method SetGroup(p: int, c: int)
      requires Valid() && 0 <= p < proc.Length
      modifies proc
      ensures Valid() && |old(K()).group| == proc.Length && K() == var k := old(K()); k.(group := k.group[p := c])
    {
      Assign(p, proc[p].(group := c));
    }

    method SetSigProcs(c: int)
      requires Valid()
      modifies this`sig_procs
      ensures Valid() && sig_procs == c && K() == old(K()).(sigProcs := c)
    {
      sig_procs := c;
    }

    method SetProcPtr(p: int)
      requires Valid()
      modifies this`proc_ptr
      ensures Valid() && K() == old(K()).(procPtr := p)
    {
      proc_ptr := p;
    }

    method LinkReady(p: int, v: int)
      requires 0 <= p < proc.Length
      modifies proc
      ensures NextReady(proc[..]) == old(NextReady(proc[..]))[p := v] && K() == old(K())
      ensures SendLinks(proc[..]) == old(SendLinks(proc[..]))
      ensures CallerQs(proc[..]) == old(CallerQs(proc[..]))
      ensures NextHeld(proc[..]) == old(NextHeld(proc[..]))
    {
      hide NextReady, SendLinks, CallerQs, NextHeld;
      ghost var t := proc[..];
      proc[p] := proc[p].(p_nextready := v);
      assert proc[..] == t[p := proc[p]];
      AssignedLinks(t, lines, Globals(proc_ptr, bill_ptr, sig_procs, slots), p, proc[p]);
    }

    method LinkSend(p: int, v: int)
      requires 0 <= p < proc.Length
      modifies proc
      ensures SendLinks(proc[..]) == old(SendLinks(proc[..]))[p := v] && K() == old(K())
      ensures NextReady(proc[..]) == old(NextReady(proc[..]))
      ensures CallerQs(proc[..]) == old(CallerQs(proc[..]))
      ensures NextHeld(proc[..]) == old(NextHeld(proc[..]))
    {
      hide NextReady, SendLinks, CallerQs, NextHeld;
      ghost var t := proc[..];
      proc[p] := proc[p].(p_sendlink := v);
      assert proc[..] == t[p := proc[p]];
      AssignedLinks(t, lines, Globals(proc_ptr, bill_ptr, sig_procs, slots), p, proc[p]);
    }

    method LinkCallerq(p: int, v: int)
      requires 0 <= p < proc.Length
      modifies proc
      ensures CallerQs(proc[..]) == old(CallerQs(proc[..]))[p := v] && K() == old(K())
      ensures NextReady(proc[..]) == old(NextReady(proc[..]))
      ensures SendLinks(proc[..]) == old(SendLinks(proc[..]))
      ensures NextHeld(proc[..]) == old(NextHeld(proc[..]))
    {
      hide NextReady, SendLinks, CallerQs, NextHeld;
      ghost var t := proc[..];
      proc[p] := proc[p].(p_callerq := v);
      assert proc[..] == t[p := proc[p]];
      AssignedLinks(t, lines, Globals(proc_ptr, bill_ptr, sig_procs, slots), p, proc[p]);
    }

    method LinkHeld(p: int, v: int)
      requires 0 <= p < proc.Length
      modifies proc
      ensures NextHeld(proc[..]) == old(NextHeld(proc[..]))[p := v] && K() == old(K())
      ensures NextReady(proc[..]) == old(NextReady(proc[..]))
      ensures SendLinks(proc[..]) == old(SendLinks(proc[..]))
      ensures CallerQs(proc[..]) == old(CallerQs(proc[..]))
    {
      hide NextReady, SendLinks, CallerQs, NextHeld;
      ghost var t := proc[..];
      proc[p] := proc[p].(p_nextheld := v);
      assert proc[..] == t[p := proc[p]];
      AssignedLinks(t, lines, Globals(proc_ptr, bill_ptr, sig_procs, slots), p, proc[p]);
    }

    // -------------------------------------------------------------- reading the table

    lemma Sizes()
      requires Valid()
      ensures var k, n := K(), proc.Length;
              && |k.prio| == |k.flags| == |k.getfrom| == |k.sendto| == |k.intBlocked| == |k.intHeld| == n
              && |k.pending| == |k.pendcount| == |k.pid| == |k.group| == |k.callers| == n && |k.ready| == NQ
              && k.ready == lines.ready && k.callers == lines.callers && k.held == lines.held
              && k.procPtr == proc_ptr && k.billPtr == bill_ptr && k.sigProcs == sig_procs && k.slots == slots
    {
    }

    lemma Field(p: int)
      requires Valid() && 0 <= p < proc.Length
      ensures var k := K();
              && |k.prio| == |k.flags| == |k.getfrom| == |k.sendto| == |k.intBlocked| == |k.intHeld| == proc.Length
              && |k.pending| == |k.pendcount| == |k.pid| == |k.group| == proc.Length
              && k.prio[p] == proc[p].p_priority && k.flags[p] == proc[p].p_flags && k.getfrom[p] == proc[p].p_getfrom
              && k.sendto[p] == proc[p].p_sendto && k.intBlocked[p] == proc[p].p_int_blocked
              && k.intHeld[p] == proc[p].p_int_held && k.pending[p] == proc[p].p_pending
              && k.pendcount[p] == proc[p].p_pendcount && k.pid[p] == proc[p].p_pid && k.group[p] == proc[p].group
    {
    }

    lemma Parts()
      requires Valid()
      ensures ReadyLinked(NextReady(proc[..]), rdy_head[..], rdy_tail[..], lines.ready)
      ensures CallersLinked(SendLinks(proc[..]), CallerQs(proc[..]), lines.callers) && |lines.callers| == proc.Length
      ensures Queue(NextHeld(proc[..]), held_head, held_tail, lines.held)
    {
    }

    lemma HeadOf(a: int)
      requires Valid() && 0 <= a < NQ
      ensures |lines.ready| == NQ && Distinct(lines.ready[a])
      ensures rdy_head[a] == First(lines.ready[a], NIL) && (rdy_head[a] == NIL <==> lines.ready[a] == [])
      ensures lines.ready[a] != [] ==> 0 <= rdy_head[a] < proc.Length && 0 <= rdy_tail[a] < proc.Length
      ensures lines.ready[a] != [] ==> rdy_tail[a] == Last(lines.ready[a])
    {
    }

    lemma NodeOf(a: int, i: nat)
      requires Valid() && 0 <= a < NQ && |lines.ready| == NQ && i < |lines.ready[a]|
      ensures 0 <= lines.ready[a][i] < proc.Length
      ensures var next := proc[lines.ready[a][i]].p_nextready;
              next == After(lines.ready[a], i, NIL) && (next == NIL <==> i + 1 == |lines.ready[a]|)
    {
      QueueNode(NextReady(proc[..]), rdy_head[a], rdy_tail[a], lines.ready[a], i);
    }

    lemma CallerHeadOf(d: int)
      requires Valid() && 0 <= d < proc.Length
      ensures |lines.callers| == proc.Length && Distinct(lines.callers[d])
      ensures proc[d].p_callerq == First(lines.callers[d], NIL)
      ensures proc[d].p_callerq == NIL <==> lines.callers[d] == []
      ensures lines.callers[d] != [] ==> 0 <= proc[d].p_callerq < proc.Length
    {
    }

    lemma CallerNodeOf(d: int, i: nat)
      requires Valid() && 0 <= d < proc.Length && |lines.callers| == proc.Length && i < |lines.callers[d]|
      ensures 0 <= lines.callers[d][i] < proc.Length
      ensures var next := proc[lines.callers[d][i]].p_sendlink;
              next == After(lines.callers[d], i, NIL) && (next == NIL <==> i + 1 == |lines.callers[d]|)
    {
    }

    // -------------------------------------------------------------- ready queues

    /** Put rp behind the last entry of queue a. */
    method ToTail(a: int, rp: int)
      requires Valid() && 0 <= a < NQ && 0 <= rp < proc.Length && |lines.ready| == NQ && Nowhere(lines.ready, rp)
      modifies this`lines, proc, rdy_head, rdy_tail
      ensures Valid() && K() == var k := old(K()); k.(ready := k.ready[a := k.ready[a] + [rp]])
    {
      hide Linked, ReadyLinked, Queue, NextReady, SendLinks, CallerQs, NextHeld;
      ghost var next, head, tail, l := NextReady(proc[..]), rdy_head[..], rdy_tail[..], lines.ready[a];
      Parts();
      HeadOf(a);
      TailLinked(next, head, tail, lines.ready, a, rp);
      if rdy_head[a] != NIL_PROC {
        LinkReady(rdy_tail[a], rp);
      } else {
        rdy_head[a] := rp;
      }
      rdy_tail[a] := rp;
      LinkReady(rp, NIL_PROC);
      lines := lines.(ready := lines.ready[a := l + [rp]]);
      assert rdy_head[..] == (if l == [] then head[a := rp] else head) && rdy_tail[..] == tail[a := rp];
      Whole(proc[..], rdy_head[..], rdy_tail[..], held_head, held_tail, lines);
    }

    /** Put rp before the head of the user queue. */
    method ToFront(rp: int)
      requires Valid() && 0 <= rp < proc.Length && |lines.ready| == NQ && Nowhere(lines.ready, rp)
      modifies this`lines, proc, rdy_head, rdy_tail
      ensures Valid() && K() == var k := old(K()); k.(ready := k.ready[USER_Q := [rp] + k.ready[USER_Q]])
    {
      hide Linked, ReadyLinked, Queue, NextReady, SendLinks, CallerQs, NextHeld;
      ghost var next, head, tail, l := NextReady(proc[..]), rdy_head[..], rdy_tail[..], lines.ready[USER_Q];
      Parts();
      HeadOf(USER_Q);
      FrontLinked(next, head, tail, lines.ready, USER_Q, rp);
      if rdy_head[USER_Q] == NIL_PROC {
        rdy_tail[USER_Q] := rp;
      }
      LinkReady(rp, rdy_head[USER_Q]);
      rdy_head[USER_Q] := rp;
      lines := lines.(ready := lines.ready[USER_Q := [rp] + l]);
      assert rdy_head[..] == head[USER_Q := rp] && rdy_tail[..] == if l == [] then tail[USER_Q := rp] else tail;
      Whole(proc[..], rdy_head[..], rdy_tail[..], held_head, held_tail, lines);
    }

    method DropHead(a: int)
      requires Valid() && 0 <= a < NQ && |lines.ready| == NQ && lines.ready[a] != []
      modifies this`lines, rdy_head
      ensures Valid() && K() == var k := old(K()); k.(ready := k.ready[a := Dropped(k.ready[a], 0)])
    {
      hide Linked, ReadyLinked, Queue, NextReady, SendLinks, CallerQs, NextHeld;
      ghost var head, tail, ready := rdy_head[..], rdy_tail[..], lines.ready;
      Parts();
      DropLinked(NextReady(proc[..]), head, tail, ready, a, 0);
      NextOf(proc[..], rdy_head[a]);
      rdy_head[a] := proc[rdy_head[a]].p_nextready;
      lines := lines.(ready := ready[a := Dropped(ready[a], 0)]);
      assert rdy_head[..] == head[a := NextReady(proc[..])[head[a]]];
      Whole(proc[..], rdy_head[..], rdy_tail[..], held_head, held_tail, lines);
    }

    /** Take out the entry behind xp, which is entry i. */
    method DropAfter(a: int, xp: int, ghost i: nat)
      requires Valid() && 0 <= a < NQ && |lines.ready| == NQ && 0 < i < |lines.ready[a]| && xp == lines.ready[a][i - 1]
      modifies this`lines, proc, rdy_tail
      ensures Valid() && K() == var k := old(K()); k.(ready := k.ready[a := Dropped(k.ready[a], i)])
    {
      hide Linked, ReadyLinked, Queue, NextReady, SendLinks, CallerQs, NextHeld;
      ghost var head, tail, ready, next := rdy_head[..], rdy_tail[..], lines.ready, NextReady(proc[..]);
      Parts();
      DropLinked(next, head, tail, ready, a, i);
      NextOf(proc[..], xp);
      var rp := proc[xp].p_nextready;
      NextOf(proc[..], rp);
      LinkReady(xp, proc[rp].p_nextready);
      if rdy_tail[a] == rp {
        rdy_tail[a] := xp;
      }
      lines := lines.(ready := ready[a := Dropped(ready[a], i)]);
      assert rdy_tail[..] == if tail[a] == rp then tail[a := xp] else tail;
      Whole(proc[..], rdy_head[..], rdy_tail[..], held_head, held_tail, lines);
    }

    /** Put the head of the user queue behind its tail. */
    method RotateUsers()
      requires Valid() && |lines.ready| == NQ && lines.ready[USER_Q] != []
      modifies this`lines, proc, rdy_head, rdy_tail
      ensures Valid() && K() == var k := old(K()); k.(ready := k.ready[USER_Q := Rotate(k.ready[USER_Q])])
    {
      hide Linked, ReadyLinked, Queue, NextReady, SendLinks, CallerQs, NextHeld, Rotate;
      ghost var head, tail, ready, next := rdy_head[..], rdy_tail[..], lines.ready, NextReady(proc[..]);
      Parts();
      RotateLinked(next, head, tail, ready, USER_Q);
      LinkReady(rdy_tail[USER_Q], rdy_head[USER_Q]);
      rdy_tail[USER_Q] := rdy_head[USER_Q];
      NextOf(proc[..], rdy_head[USER_Q]);
      rdy_head[USER_Q] := proc[rdy_head[USER_Q]].p_nextready;
      LinkReady(rdy_tail[USER_Q], NIL_PROC);
      lines := lines.(ready := ready[USER_Q := Rotate(ready[USER_Q])]);
      assert rdy_tail[..] == tail[USER_Q := head[USER_Q]];
      assert rdy_head[..] == head[USER_Q := next[tail[USER_Q] := head[USER_Q]][head[USER_Q]]];
      Whole(proc[..], rdy_head[..], rdy_tail[..], held_head, held_tail, lines);
    }

    // -------------------------------------------------------------- proc.c: scheduling

    method PickProc()
      requires Valid()
      modifies this`proc_ptr, this`bill_ptr
      ensures |old(K()).ready| == NQ && Valid() && K() == KernelSpec.PickProc(old(K()))
    {
      hide Linked;
      HeadOf(TASK_Q);
      HeadOf(SERVER_Q);
      HeadOf(USER_Q);
      var rp := rdy_head[TASK_Q];
      if rp != NIL_PROC {
        proc_ptr := rp;
        return;
      }
      rp := rdy_head[SERVER_Q];
      if rp != NIL_PROC {
        proc_ptr := rp;
        return;
      }
      rp := rdy_head[USER_Q];
      if rp != NIL_PROC {
        proc_ptr := rp;
        bill_ptr := rp;
        return;
      }
      proc_ptr := slots.idle;
      bill_ptr := slots.idle;
    }

    method Ready(rp: int)
      requires Valid() && 0 <= rp < proc.Length && Nowhere(lines.ready, rp)
      modifies this`proc_ptr, this`lines, proc, rdy_head, rdy_tail
      ensures |old(K()).ready| == NQ && |old(K()).prio| == proc.Length
      ensures Valid() && K() == KernelSpec.Ready(old(K()), rp)
    {
      hide Linked;
      Field(rp);
      HeadOf(TASK_Q);
      if proc[rp].p_priority == PPRI_TASK {
        if rdy_head[TASK_Q] == NIL_PROC {
          proc_ptr := rp;
        }
        ToTail(TASK_Q, rp);
        return;
      }
      if proc[rp].p_priority == PPRI_SERVER {
        ToTail(SERVER_Q, rp);
        return;
      }
      ToFront(rp);
    }

    /** rp need not be on its queue, nor at its head. */
    method Unready(rp: int)
      requires Valid() && 0 <= rp < proc.Length
      modifies this`proc_ptr, this`bill_ptr, this`lines, proc, rdy_head, rdy_tail
      ensures |old(K()).ready| == NQ && |old(K()).prio| == proc.Length
      ensures Valid() && K() == KernelSpec.Unready(old(K()), rp)
    {
      hide Linked, Columns;
      Field(rp);
      Sizes();
      var a := QueueOf(proc[rp].p_priority);
      HeadOf(a);
      ghost var l := lines.ready[a];
      var xp := rdy_head[a];
      if xp == NIL_PROC { return; }
      if xp == rp {
        FoundAt(l, rp, 0);
        DropHead(a);
        Sizes();
        if a != TASK_Q || rp == proc_ptr {
          PickProc();
        }
        return;
      }
      ghost var i := 0;
      NodeOf(a, 0);
      while proc[xp].p_nextready != rp
        invariant Valid()
        invariant i < |l| && xp == l[i] && 0 <= xp < proc.Length
        invariant proc[xp].p_nextready == After(l, i, NIL) && (proc[xp].p_nextready == NIL <==> i + 1 == |l|)
        invariant forall j :: 0 <= j <= i ==> l[j] != rp
        modifies {}
        decreases |l| - i
      {
        xp := proc[xp].p_nextready;
        if xp == NIL_PROC {
          FoundNowhere(l, rp);
          return;
        }
        i := i + 1;
        NodeOf(a, i);
      }
      FoundAt(l, rp, i + 1);
      DropAfter(a, xp, i + 1);
    }

    /** The body of sched's loop: bring the group's first process, if it has one, to the head. */
    method BringUp(group: int)
      requires Valid() && |lines.ready| == NQ && lines.ready[USER_Q] != [] && |K().group| == proc.Length
      requires Grouped(lines.ready[USER_Q], K().group)
      modifies this`lines, proc, rdy_head, rdy_tail
      ensures Valid() && |old(K()).ready| == NQ && Grouped(old(K()).ready[USER_Q], old(K()).group)
      ensures K() == var k := old(K()); k.(ready := k.ready[USER_Q := BroughtUp(k.ready[USER_Q], k.group, group)])
    {
      hide Linked, Columns, BroughtUp;
      ghost var q, g := lines.ready[USER_Q], K().group;
      Sizes();
      HeadOf(USER_Q);
      NodeOf(USER_Q, 0);
      Field(rdy_head[USER_Q]);
      if proc[rdy_head[USER_Q]].group == group {
        AtFrontAlready(q, g, group);
        Unchanged(lines.ready, USER_Q);
        return;
      }
      var prev_node := rdy_head[USER_Q];
      ghost var i := 0;
      while proc[prev_node].p_nextready != NIL_PROC && proc[proc[prev_node].p_nextready].group != group
        invariant Valid() && K() == old(K())
        invariant i < |q| && prev_node == q[i] && 0 <= prev_node < proc.Length
        invariant proc[prev_node].p_nextready == After(q, i, NIL) && (proc[prev_node].p_nextready == NIL <==> i + 1 == |q|)
        invariant forall j :: 0 <= j <= i ==> g[q[j]] != group
        modifies {}
        decreases |q| - i
      {
        prev_node := proc[prev_node].p_nextready;
        i := i + 1;
        NodeOf(USER_Q, i);
        Field(prev_node);
      }
      if proc[prev_node].p_nextready != NIL_PROC {
        var node := proc[prev_node].p_nextready;
        Field(node);
        FirstOfIs(q, g, group, i + 1);
        BroughtInSteps(q, g, group, i + 1);
        NodeOffQueue(proc[..], rdy_head[..], rdy_tail[..], held_head, held_tail, lines, i + 1);
        DropAfter(USER_Q, prev_node, i + 1);
        Sizes();
        ToFront(node);
      } else {
        FirstOfIs(q, g, group, i + 1);
        NoneToBringUp(q, g, group);
        Unchanged(lines.ready, USER_Q);
      }
    }

    method Sched()
      requires Valid() && |lines.ready| == NQ && |K().group| == proc.Length && Grouped(lines.ready[USER_Q], K().group)
      modifies this`proc_ptr, this`bill_ptr, this`lines, proc, rdy_head, rdy_tail
      ensures |old(K()).ready| == NQ && Grouped(old(K()).ready[USER_Q], old(K()).group)
      ensures Valid() && K() == Rescheduled(old(K())) && TookTurn(old(K()), K())
    {
      hide Linked, Columns, BroughtUp, Rotate, UserQueue.Sched, Passed, TookTurn;
      ghost var k, q, g := K(), lines.ready[USER_Q], K().group;
      Sizes();
      RescheduledTurn(k);
      HeadOf(USER_Q);
      if rdy_head[USER_Q] == NIL_PROC { return; }
      Field(rdy_head[USER_Q]);
      var group := proc[rdy_head[USER_Q]].group;
      RotateUsers();
      NextUp(k, q, g, group);
      PickProc();
    }

    /** The do/while of sched: go round the groups until one has an entry, and bring that to the head. */
    method NextUp(ghost k: Kernel, ghost q: seq<int>, ghost g: seq<int>, start: int)
      requires Valid() && Grouped(q, g) && q != [] && g == K().group && |g| == proc.Length && start == g[q[0]]
      requires |k.ready| == NQ && k.ready[USER_Q] == q && K() == k.(ready := k.ready[USER_Q := Rotate(q)])
      modifies this`lines, proc, rdy_head, rdy_tail
      ensures Valid() && K() == k.(ready := k.ready[USER_Q := UserQueue.Sched(q, g)])
    {
      hide Linked, Columns, BroughtUp, Rotate, UserQueue.Sched, Passed;
      Sizes();
      var group := start;
      ghost var r := Rotate(q);
      ghost var n := 0;
      NoFourthRound(q, g, 0);
      NonePassed(r, g, g[q[0]]);
      var again := true;
      while again
        invariant Valid() && n <= 3 && group == (g[q[0]] + n) % GROUPS
        invariant K() == k.(ready := k.ready[USER_Q := if again then r else UserQueue.Sched(q, g)])
        invariant again ==> n < 3 && Passed(r, g, g[q[0]], n)
        decreases again, 3 - n
      {
        RoundEnds(q, g, n);
        NoFourthRound(q, g, n);
        Sizes();
        group := (group + 1) % 3;
        BringUp(group);
        Sizes();
        HeadOf(USER_Q);
        Field(rdy_head[USER_Q]);
        again := proc[rdy_head[USER_Q]].group != group;
        n := n + 1;
        NoFourthRound(q, g, n);
      }
    }

    // -------------------------------------------------------------- caller queues

    /** Walk to the end of dest's caller queue and put the caller there. */
    method QueueCaller(caller: int, dest: int)
      requires Valid() && 0 <= caller < proc.Length && 0 <= dest < proc.Length && Nowhere(lines.callers, caller)
      modifies this`lines, proc
      ensures Valid() && |old(K()).callers| == proc.Length
      ensures K() == var k := old(K()); k.(callers := k.callers[dest := k.callers[dest] + [caller]])
    {
      hide Linked, ReadyLinked, CallersLinked, Queue, NextReady, SendLinks, CallerQs, NextHeld;
      ghost var t, next, heads := proc[..], SendLinks(proc[..]), CallerQs(proc[..]);
      Parts();
      CallerHeadOf(dest);
      ghost var l := lines.callers[dest];
      EnqueueLinked(next, heads, lines.callers, dest, caller);
      var next_ptr := proc[dest].p_callerq;
      if next_ptr == NIL_PROC {
        LinkCallerq(dest, caller);
      } else {
        ghost var i := 0;
        CallerNodeOf(dest, 0);
        while proc[next_ptr].p_sendlink != NIL_PROC
          invariant Valid() && proc[..] == t
          invariant i < |l| && next_ptr == l[i] && 0 <= next_ptr < proc.Length
          invariant proc[next_ptr].p_sendlink == After(l, i, NIL) && (proc[next_ptr].p_sendlink == NIL <==> i + 1 == |l|)
          modifies {}
          decreases |l| - i
        {
          next_ptr := proc[next_ptr].p_sendlink;
          i := i + 1;
          CallerNodeOf(dest, i);
        }
        LinkSend(next_ptr, caller);
      }
      LinkSend(caller, NIL_PROC);
      lines := lines.(callers := lines.callers[dest := l + [caller]]);
      Whole(proc[..], rdy_head[..], rdy_tail[..], held_head, held_tail, lines);
    }

    /** Take sender, which is entry i, out of d's caller queue. */
    method DropCaller(d: int, previous_ptr: int, sender_ptr: int, ghost i: nat)
      requires Valid() && 0 <= d < proc.Length && |lines.callers| == proc.Length && i < |lines.callers[d]|
      requires sender_ptr == lines.callers[d][i] && (i > 0 ==> previous_ptr == lines.callers[d][i - 1])
      modifies this`lines, proc
      ensures Valid() && K() == var k := old(K()); k.(callers := k.callers[d := Dropped(k.callers[d], i)])
    {
      hide Linked, ReadyLinked, CallersLinked, Queue, NextReady, SendLinks, CallerQs, NextHeld;
      ghost var t, next, heads, l := proc[..], SendLinks(proc[..]), CallerQs(proc[..]), lines.callers[d];
      Parts();
      DequeueLinked(next, heads, lines.callers, d, i);
      SendLinkOf(t, d);
      SendLinkOf(t, sender_ptr);
      if sender_ptr == proc[d].p_callerq {
        LinkCallerq(d, proc[sender_ptr].p_sendlink);
      } else {
        LinkSend(previous_ptr, proc[sender_ptr].p_sendlink);
      }
      lines := lines.(callers := lines.callers[d := Dropped(l, i)]);
      Whole(proc[..], rdy_head[..], rdy_tail[..], held_head, held_tail, lines);
    }

    // -------------------------------------------------------------- blocking and unblocking

    method Block(p: int, f: set<Flag>)
      requires Valid() && 0 <= p < proc.Length
      modifies this`proc_ptr, this`bill_ptr, this`lines, proc, rdy_head, rdy_tail
      ensures |old(K()).ready| == NQ && |old(K()).prio| == |old(K()).flags| == proc.Length
      ensures Valid() && K() == KernelSpec.Block(old(K()), p, f)
    {
      hide Linked, Columns, KernelSpec.Unready;
      Sizes();
      Field(p);
      if proc[p].p_flags == {} {
        Unready(p);
      }
      Field(p);
      SetFlags(p, proc[p].p_flags + f);
    }

    method Unblock(p: int, f: Flag)
      requires Valid() && 0 <= p < proc.Length && Nowhere(lines.ready, p)
      modifies this`proc_ptr, this`lines, proc, rdy_head, rdy_tail
      ensures |old(K()).ready| == NQ && |old(K()).prio| == |old(K()).flags| == proc.Length
      ensures Valid() && K() == KernelSpec.Unblock(old(K()), p, f)
    {
      hide Linked, Columns, KernelSpec.Ready;
      Sizes();
      Field(p);
      SetFlags(p, proc[p].p_flags - {f});
      Field(p);
      if proc[p].p_flags == {} {
        Ready(p);
      }
    }

    // -------------------------------------------------------------- proc.c: messages

    /** mini_send's walk along the processes that wait for each other. */
    method WouldLock(caller: int, dest: int) returns (locked: bool)
      requires Valid() && Is(K(), caller) && Is(K(), dest) && Wired(K().flags, K().sendto)
      requires Acyclic(K().flags, K().sendto)
      ensures locked <==> Locked(K(), caller, dest)
    {
      hide Linked, Acyclic, Walk, Columns;
      Sizes();
      ghost var flags, sendto, start := K().flags, K().sendto, K().sendto[dest];
      Field(dest);
      if SENDING !in proc[dest].p_flags { return false; }
      var next_ptr := proc[dest].p_sendto;
      ghost var n := 0;
      WalkZero(flags, sendto, start);
      while true
        invariant 0 <= next_ptr < proc.Length && Walk(flags, sendto, start, n) == At(next_ptr)
        invariant forall m: nat :: m < n ==> Walk(flags, sendto, start, m) != At(caller)
        decreases proc.Length - n
      {
        WalkEnds(flags, sendto, start, n);
        if next_ptr == caller { return true; }
        Field(next_ptr);
        if SENDING in proc[next_ptr].p_flags {
          WalkStep(flags, sendto, start, n, next_ptr);
          next_ptr := proc[next_ptr].p_sendto;
          n := n + 1;
        } else {
          WalkStops(flags, sendto, start, n, next_ptr);
          return false;
        }
      }
    }

    method MiniSend(caller: int, dest: int, addressOk: bool) returns (r: Status)
      requires Valid() && Lists(K()) && Is(K(), caller) && Is(K(), dest) && SENDING !in K().flags[caller]
      modifies this`proc_ptr, this`bill_ptr, this`lines, proc, rdy_head, rdy_tail
      ensures Valid() && (K(), r) == KernelSpec.MiniSend(old(K()), caller, dest, addressOk)
    {
      hide Linked, Columns, ReadyOk, CallersOk, Acyclic, HeldOk, Locked, KernelSpec.Block, KernelSpec.Unblock;
      Sizes();
      Field(caller);
      Field(dest);
      if proc[caller].p_priority == PPRI_USER && dest != slots.fs && dest != slots.mm { return E_BAD_DEST; }
      if proc[dest].p_priority == PPRI_NONE { return E_BAD_DEST; }
      if !addressOk { return EFAULT; }
      var locked := WouldLock(caller, dest);
      if locked { return ELOCKED; }
      if RECEIVING in proc[dest].p_flags && SENDING !in proc[dest].p_flags
         && (proc[dest].p_getfrom == ANY || proc[dest].p_getfrom == From(caller)) {
        NotReady(K(), dest);
        Unblock(dest, RECEIVING);
      } else {
        BlockAndQueue(caller, dest);
      }
      return OK;
    }

    /** The destination is not waiting: the caller blocks, and joins its queue. */
    method BlockAndQueue(caller: int, dest: int)
      requires Valid() && Lists(K()) && Is(K(), caller) && Is(K(), dest) && SENDING !in K().flags[caller]
      modifies this`proc_ptr, this`bill_ptr, this`lines, proc, rdy_head, rdy_tail
      ensures Is(old(K()), caller) && Valid() && K() == Enqueue(KernelSpec.Block(old(K()), caller, {SENDING}), caller, dest)
    {
      hide Linked, Columns, ReadyOk, CallersOk, Acyclic, HeldOk, KernelSpec.Block;
      Sizes();
      NotCalling(K(), caller);
      BlockLines(K(), caller, {SENDING});
      Block(caller, {SENDING});
      Sizes();
      SetSendto(caller, dest);
      Sizes();
      QueueCaller(caller, dest);
    }

    /** Tell MM, which is waiting for work, about one process's signals. */
    method Inform()
      requires Valid() && Almost(K()) && MMListens(K())
      modifies this`proc_ptr, this`bill_ptr, this`sig_procs, this`lines, proc, rdy_head, rdy_tail
      ensures Valid() && K() == KernelSpec.Inform(old(K()))
    {
      hide Linked, Columns, Lists, Almost, MMListens, KernelSpec.MiniSend, KernelSpec.PickProc;
      ghost var k := K();
      InformReady(k);
      Sizes();
      var rp := slots.mm;
      while rp < proc.Length
        invariant Valid() && K() == k && slots.mm <= rp <= proc.Length
        invariant forall j :: slots.mm <= j < rp ==> PENDING !in k.flags[j]
      {
        Field(rp);
        if PENDING in proc[rp].p_flags {
          FirstPendingIs(k.flags, slots.mm, rp);
          Sizes();
          SetSigProcs(sig_procs - 1);
          var r := MiniSend(slots.hardware, slots.mm, true);
          assert r == OK;
          Sizes();
          SetPending(rp, {});
          Field(rp);
          SetFlags(rp, proc[rp].p_flags - {PENDING});
          Sizes();
          PickProc();
          return;
        }
        rp := rp + 1;
      }
      FirstPendingIs(k.flags, slots.mm, rp);
    }

    method MiniRec(caller: int, src: Source)
      requires Valid() && Core(K()) && Real(K(), caller) && MayReceive(K(), caller, src) && CallersInTable(K())
      modifies this`proc_ptr, this`bill_ptr, this`sig_procs, this`lines, proc, rdy_head, rdy_tail
      ensures Valid() && K() == KernelSpec.MiniRec(old(K()), caller, src)
    {
      hide Linked, Columns, Lists, Core, MayReceive, KernelSpec.MiniRec, KernelSpec.Unblock, KernelSpec.Block, KernelSpec.Inform;
      ghost var k := K();
      Sizes();
      Field(caller);
      CoreIsLists(k);
      RecIs(k, caller, src);
      if SENDING !in proc[caller].p_flags {
        CallerHeadOf(caller);
        ghost var l, i := lines.callers[caller], 0;
        var sender_ptr, previous_ptr := proc[caller].p_callerq, NIL_PROC;
        while sender_ptr != NIL_PROC
          invariant Valid() && K() == k && i <= |l| && sender_ptr == After(l, i - 1, NIL)
          invariant i > 0 ==> previous_ptr == l[i - 1]
          invariant i < |l| ==> 0 <= sender_ptr
          invariant forall j :: 0 <= j < i ==> !Accepts(src, l[j])
          decreases |l| - i
        {
          Sizes();
          CallerNodeOf(caller, i);
          if src == ANY || src == From(sender_ptr) {
            FirstAcceptedIs(l, src, i);
            SenderIsIdle(k, caller, i);
            DropCaller(caller, previous_ptr, sender_ptr, i);
            Sizes();
            Unblock(sender_ptr, SENDING);
            return;
          }
          previous_ptr, sender_ptr, i := sender_ptr, proc[sender_ptr].p_sendlink, i + 1;
        }
        Sizes();
        FirstAcceptedIs(l, src, i);
        Field(caller);
        if proc[caller].p_int_blocked && (src == ANY || src == From(slots.hardware)) {
          SetIntBlocked(caller, false);
          return;
        }
      }
      WaitsNow(k, caller, src);
      SetGetfrom(caller, src);
      Sizes();
      Block(caller, {RECEIVING});
      Sizes();
      if sig_procs > 0 && caller == slots.mm && src == ANY {
        Inform();
      }
    }

    /** A trap from the process now running. */
    method SysCall(f: Function, other: Source, addressOk: bool) returns (r: Status)
      requires Valid() && Inv(K()) && TrapAllowed(K(), f, other)
      modifies this`proc_ptr, this`bill_ptr, this`sig_procs, this`lines, proc, rdy_head, rdy_tail
      ensures Wired(old(K()).flags, old(K()).sendto) && CallersInTable(old(K())) && Is(old(K()), old(K()).procPtr)
      ensures f != RECEIVE && other == ANY ==> old(K()).prio[old(K()).procPtr] == PPRI_USER
      ensures Valid() && (K(), r) == KernelSpec.SysCall(old(K()), f, other, addressOk) && Inv(K())
    {
      hide Linked, Columns, Inv, Core, Lists, MayReceive, KernelSpec.MiniSend, KernelSpec.MiniRec, CallersInTable;
      ghost var k := K();
      Sizes();
      InvParted(k);
      SysCallKeeps(k, f, other, addressOk);
      if other.From? && !(0 <= other.slot < proc.Length) { return E_BAD_SRC; }
      var rp := proc_ptr;
      Field(rp);
      if proc[rp].p_priority == PPRI_USER && f != BOTH { return E_NO_PERM; }
      if f != RECEIVE {
        if other == ANY { return E_BAD_DEST; }
        RunningMaySend(k, other.slot);
        BetweenSendAndReceive(k, f, other, addressOk);
        r := MiniSend(rp, other.slot, addressOk);
        if f == SEND || r != OK { return; }
      } else {
        RunningMayReceive(k, other);
      }
      MiniRec(rp, other);
      r := OK;
    }

    // -------------------------------------------------------------- proc.c: interrupts

    method Interrupt(task: int, competing: bool)
      requires Valid() && Core(K()) && IsTask(K(), task)
      modifies this`proc_ptr, this`held_head, this`held_tail, this`lines, proc, rdy_head, rdy_tail
      ensures Valid() && K() == KernelSpec.Interrupt(old(K()), task, competing)
    {
      hide Linked, Columns, Core;
      ghost var k := K();
      Sizes();
      Field(task);
      CoreIsLists(k);
      if competing {
        if !proc[task].p_int_held {
          NotHeldYet(k, task);
          SetIntHeld(task, true);
          HoldInterrupt(task);
        }
        return;
      }
      if !(RECEIVING in proc[task].p_flags && SENDING !in proc[task].p_flags)
         || !(proc[task].p_getfrom == ANY || proc[task].p_getfrom == From(slots.hardware)) {
        SetIntBlocked(task, true);
        return;
      }
      NotReady(k, task);
      SetFlags(task, proc[task].p_flags - {RECEIVING});
      Sizes();
      SetIntBlocked(task, false);
      Sizes();
      HeadOf(TASK_Q);
      if rdy_head[TASK_Q] == NIL_PROC {
        SetProcPtr(task);
      }
      ToTail(TASK_Q, task);
    }

    /** Put rp behind the last interrupt held up. */
    method HoldInterrupt(rp: int)
      requires Valid() && 0 <= rp < proc.Length && rp !in lines.held
      modifies this`held_head, this`held_tail, this`lines, proc
      ensures Valid() && K() == var k := old(K()); k.(held := k.held + [rp])
    {
      hide Linked, ReadyLinked, CallersLinked, Queue, NextReady, SendLinks, CallerQs, NextHeld;
      Parts();
      ghost var next, l := NextHeld(proc[..]), lines.held;
      QueueHead(next, held_head, held_tail, l);
      QueueAppend(next, held_head, held_tail, l, rp);
      if held_head != NIL_PROC {
        LinkHeld(held_tail, rp);
      } else {
        held_head := rp;
      }
      held_tail := rp;
      LinkHeld(rp, NIL_PROC);
      lines := lines.(held := l + [rp]);
      Whole(proc[..], rdy_head[..], rdy_tail[..], held_head, held_tail, lines);
    }

    method ReleaseInterrupt() returns (rp: int)
      requires Valid() && lines.held != []
      modifies this`held_head, this`held_tail, this`lines
      ensures rp == old(lines.held[0]) && 0 <= rp < proc.Length
      ensures Valid() && K() == var k := old(K()); k.(held := k.held[1..])
    {
      hide Linked, ReadyLinked, CallersLinked, Queue, NextReady, SendLinks, CallerQs, NextHeld;
      Parts();
      ghost var l := lines.held;
      QueueHead(NextHeld(proc[..]), held_head, held_tail, l);
      HeldTail(NextHeld(proc[..]), held_head, held_tail, l);
      rp := held_head;
      HeldLinkOf(proc[..], rp);
      held_head := proc[rp].p_nextheld;
      if held_head == NIL_PROC {
        held_tail := NIL_PROC;
      }
      lines := lines.(held := l[1..]);
      Whole(proc[..], rdy_head[..], rdy_tail[..], held_head, held_tail, lines);
    }

    /** Repeat the interrupt held up longest. */
    method ReleaseOne()
      requires Valid() && Core(K()) && lines.held != []
      modifies this`proc_ptr, this`held_head, this`held_tail, this`lines, proc, rdy_head, rdy_tail
      ensures old(K()).held != [] && Is(old(K()), old(K()).held[0])
      ensures Valid() && K() == ReleaseHeld(old(K()))
    {
      hide Linked, Columns, Core, KernelSpec.Interrupt;
      Sizes();
      HeldFewer(K());
      var rp := ReleaseInterrupt();
      Sizes();
      SetIntHeld(rp, false);
      Interrupt(rp, false);
    }

    /** Repeat all interrupts held up, oldest first. */
    method Unhold()
      requires Valid() && Core(K())
      modifies this`proc_ptr, this`held_head, this`held_tail, this`lines, proc, rdy_head, rdy_tail
      ensures forall i :: 0 <= i < |old(K()).held| ==> 0 <= old(K()).held[i] < |old(K()).prio|
      ensures Valid() && K() == KernelSpec.Unhold(old(K()))
    {
      hide Linked, Columns, Core, Shape, ReleaseHeld;
      ghost var k := K();
      Sizes();
      HeldInTable(k);
      HeldHead();
      while held_head != NIL_PROC
        invariant Valid() && Core(K()) && (held_head == NIL_PROC <==> lines.held == [])
        invariant HeldIndices(K()) && KernelSpec.Unhold(K()) == KernelSpec.Unhold(k)
        decreases |lines.held|
      {
        Sizes();
        UnholdOne(K());
        ReleaseOne();
        Sizes();
        HeldInTable(K());
        HeldHead();
      }
      Sizes();
    }

    lemma HeldHead()
      requires Valid()
      ensures held_head == NIL_PROC <==> lines.held == []
    {
    }

    // -------------------------------------------------------------- system.c

    /** Put a signal on record, and count it. */
    method Record(p: int, sig: int)
      requires Valid() && Is(K(), p)
      modifies proc
      ensures Valid() && K() == Recorded(old(K()), p, sig)
    {
      hide Linked, Columns;
      Sizes();
      Field(p);
      SetPending(p, proc[p].p_pending + {sig});
      Sizes();
      Field(p);
      SetPendcount(p, proc[p].p_pendcount + 1);
    }

    /** The first signal on record: block the process. */
    method HoldBack(ghost k: Kernel, p: int, ghost sig: int)
      requires Valid() && Core(k) && Is(k, p) && K() == Recorded(k, p, sig)
      modifies this`proc_ptr, this`bill_ptr, this`sig_procs, this`lines, proc, rdy_head, rdy_tail
      ensures Valid() && K() == HeldBack(k, p, sig)
    {
      hide Linked, Columns, Core, HeldBack, KernelSpec.Block;
      Sizes();
      CoreIsLists(k);
      HeldBackIs(k, p, sig);
      Block(p, {PENDING, SIG_PENDING});
      Sizes();
      SetSigProcs(sig_procs + 1);
    }

    method CauseSig(p: int, sig: int)
      requires Valid() && Core(K()) && Is(K(), p) && K().prio[p] == PPRI_USER
      modifies this`proc_ptr, this`bill_ptr, this`sig_procs, this`lines, proc, rdy_head, rdy_tail
      ensures Wired(old(K()).flags, old(K()).sendto)
      ensures Valid() && K() == KernelSpec.CauseSig(old(K()), p, sig)
    {
      hide Linked, Columns, Core, Almost, HeldBack, KernelSpec.CauseSig, KernelSpec.Inform, KernelSpec.Block;
      ghost var k := K();
      Sizes();
      Field(p);
      CoreIsLists(k);
      CauseIs(k, p, sig);
      if sig in proc[p].p_pending { return; }
      Record(p, sig);
      Sizes();
      Field(p);
      if PENDING in proc[p].p_flags { return; }
      SignalledIsUser(k, p);
      HeldBackKeeps(k, p, sig);
      HoldBack(k, p, sig);
      Sizes();
      Field(slots.mm);
      if RECEIVING !in proc[slots.mm].p_flags || proc[slots.mm].p_getfrom != ANY { return; }
      Inform();
    }

    method DoEndsig(p: int) returns (r: Status)
      requires Valid() && Core(K()) && Is(K(), p)
      modifies this`proc_ptr, this`lines, proc, rdy_head, rdy_tail
      ensures Valid() && (K(), r) == EndSig(old(K()), p)
    {
      hide Linked, Columns, Core, KernelSpec.Unblock;
      Sizes();
      Field(p);
      if proc[p].p_priority == PPRI_NONE { return E_BAD_PROC; }
      if proc[p].p_pendcount != 0 {
        SignalledIsIdle(K(), p);
        SetPendcount(p, proc[p].p_pendcount - 1);
        Sizes();
        Field(p);
        if proc[p].p_pendcount == 0 {
          Unblock(p, SIG_PENDING);
        }
      }
      return OK;
    }

    method DoNewmap(p: int)
      requires Valid() && Lists(K()) && Is(K(), p)
      modifies this`proc_ptr, this`lines, proc, rdy_head, rdy_tail
      ensures |old(K()).ready| == NQ && Valid() && K() == NewMap(old(K()), p)
    {
      hide Linked, Columns, Lists, KernelSpec.Ready;
      Sizes();
      Field(p);
      var old_flags := proc[p].p_flags;
      if old_flags != {} { NotReady(K(), p); }
      Unchanged(K().flags, p);
      assert old_flags == {} ==> old_flags - {NO_MAP} == {};
      SetFlags(p, old_flags - {NO_MAP});
      Sizes();
      Field(p);
      if old_flags != {} && proc[p].p_flags == {} {
        Ready(p);
      }
    }

    /** The first slot in use by this process, or the size of the table. */
    method FindProcDescriptor(pid: int) returns (rp: int)
      requires Valid()
      ensures |K().pid| == proc.Length && rp == FindPid(K().pid, pid)
    {
      hide Linked, Columns;
      Sizes();
      rp := 0;
      while rp < proc.Length
        invariant 0 <= rp <= proc.Length
        invariant forall j :: 0 <= j < rp ==> !(K().pid[j] != 0 && K().pid[j] == pid)
      {
        Field(rp);
        if proc[rp].p_pid != 0 && proc[rp].p_pid == pid {
          FindPidIs(K().pid, pid, rp);
          return;
        }
        rp := rp + 1;
      }
      FindPidIs(K().pid, pid, rp);
    }

    method DoSetGroup(pid: int, group: int) returns (r: Status)
      requires Valid() && Shape(K())
      modifies proc
      ensures Valid() && (K(), r) == KernelSpec.SetGroup(old(K()), pid, group)
    {
      hide Linked, Columns;
      Sizes();
      if group < 0 || group > 2 { return EFAULT; }
      var rp := FindProcDescriptor(pid);
      if rp == proc.Length { return EFAULT; }
      SetGroup(rp, group);
      return OK;
    }

    /** Look for rc in the caller queue of rp, and take it out; was it at the front? */
    method SearchQueue(rp: int, rc: int) returns (front: bool)
      requires Valid() && 0 <= rp < proc.Length && 0 <= rc < proc.Length && |lines.callers| == proc.Length
      modifies this`lines, proc
      ensures Valid() && |old(K()).callers| == proc.Length
      ensures var k, i := old(K()), IndexOf(old(K()).callers[rp], rc);
              && front == (|k.callers[rp]| > 0 && i == 0)
              && K() == if i < |k.callers[rp]| then k.(callers := k.callers[rp := Dropped(k.callers[rp], i)]) else k
    {
      hide Linked, Columns;
      Sizes();
      CallerHeadOf(rp);
      ghost var k, l := K(), lines.callers[rp];
      if proc[rp].p_callerq == NIL_PROC { return false; }
      if proc[rp].p_callerq == rc {
        FoundAt(l, rc, 0);
        DropCaller(rp, NIL_PROC, rc, 0);
        return true;
      }
      front := false;
      var np := proc[rp].p_callerq;
      ghost var i := 0;
      CallerNodeOf(rp, 0);
      while proc[np].p_sendlink != NIL_PROC
        invariant Valid() && K() == k && i < |l| && np == l[i] && 0 <= np < proc.Length
        invariant proc[np].p_sendlink == After(l, i, NIL) && (proc[np].p_sendlink == NIL <==> i + 1 == |l|)
        invariant forall j :: 0 <= j <= i ==> l[j] != rc
        decreases |l| - i
      {
        Sizes();
        var xp := proc[np].p_sendlink;
        if xp == rc {
          FoundAt(l, rc, i + 1);
          DropCaller(rp, np, rc, i + 1);
          return;
        }
        np := xp;
        i := i + 1;
        CallerNodeOf(rp, i);
      }
      FoundNowhere(l, rc);
    }

    /** Check all slots to see if the exiting process is queued. */
    method LeaveCallerQueue(rc: int)
      requires Valid() && Is(K(), rc) && Wired(K().flags, K().sendto)
      requires CallersOk(K().flags, K().sendto, K().callers) && SENDING in K().flags[rc]
      modifies this`lines, proc
      ensures Valid() && K() == LeaveQueue(old(K()), rc)
    {
      hide Linked, Columns, LeaveQueue, CallersOk;
      ghost var k := K();
      Sizes();
      StaysOut(k, rc);
      var rp := 0;
      while rp < proc.Length
        invariant Valid() && 0 <= rp <= proc.Length
        invariant K() == if rp <= k.sendto[rc] then k else LeaveQueue(k, rc)
      {
        Sizes();
        LeavesOnly(k, rc, rp);
        var front := SearchQueue(rp, rc);
        if front { break; }
        rp := rp + 1;
      }
    }

    method DoXit(rc: int)
      requires Valid() && Core(K()) && Is(K(), rc)
      modifies this`proc_ptr, this`bill_ptr, this`sig_procs, this`lines, proc, rdy_head, rdy_tail
      ensures Wired(old(K()).flags, old(K()).sendto) && Valid() && K() == Exit(old(K()), rc)
    {
      hide Linked, Columns, Core, LeaveQueue, CallersOk, Exit, KernelSpec.Unready;
      ghost var k := K();
      CoreIsLists(k);
      Sizes();
      Field(rc);
      ExitParts(k, rc);
      if proc[rc].p_flags == {} {
        Unready(rc);
      }
      Sizes();
      Field(rc);
      StaysOut(K(), rc);
      ExitIs(k, rc);
      if SENDING in proc[rc].p_flags {
        LeaveCallerQueue(rc);
      }
      Sizes();
      Field(rc);
      if PENDING in proc[rc].p_flags {
        SetSigProcs(sig_procs - 1);
      }
      ClearSlot(rc);
    }

    method ClearSlot(rc: int)
      requires Valid() && 0 <= rc < proc.Length
      modifies proc
      ensures |old(K()).prio| == proc.Length && |old(K()).flags| == |old(K()).pending| == |old(K()).pendcount| == proc.Length
      ensures Valid() && K() == Cleaned(old(K()), rc)
    {
      hide Linked, Columns;
      Sizes();
      SetPending(rc, {});
      SetPendcount(rc, 0);
      SetFlags(rc, {});
      SetPriority(rc, PPRI_NONE);
    }

    /** The child's slot becomes a copy of the parent's, and is then corrected. */
    method DoFork(parent: int, child: int, pid: int)
      requires Valid() && Core(K()) && MayFork(K(), parent, child)
      modifies proc
      ensures Valid() && K() == Fork(old(K()), parent, child, pid)
    {
      hide Linked, Columns, Core;
      ghost var k, t := K(), proc[..];
      Sizes();
      ChildIsNowhere(k, parent, child);
      ForkedLinks(t, rdy_head[..], rdy_tail[..], held_head, held_tail, lines, parent, child, pid);
      ForkedColumns(t, lines, Globals(proc_ptr, bill_ptr, sig_procs, slots), parent, child, pid);
      proc[child] := proc[parent];
      proc[child] := proc[child].(p_flags := proc[child].p_flags + {NO_MAP});
      proc[child] := proc[child].(p_flags := proc[child].p_flags - {PENDING, SIG_PENDING, P_STOP});
      proc[child] := proc[child].(p_pending := {}, p_pendcount := 0, p_pid := pid, group := 0);
      assert proc[..] == t[child := Child(t[parent], pid)];
    }

    // -------------------------------------------------------------- any operation

    /** Whatever the kernel is asked to do, the table goes from one good state to the next, as the
        specification says. */
    method Step(op: Op)
      requires Valid() && Inv(K()) && Allowed(K(), op)
      modifies this`proc_ptr, this`bill_ptr, this`sig_procs, this`held_head, this`held_tail, this`lines
      modifies proc, rdy_head, rdy_tail
      ensures Valid() && K() == Do(old(K()), op) && Inv(K())
    {
      hide Linked, Columns, Inv, Core, Allowed;
      InvParted(K());
      InvReads(K());
      OpKeeps(K(), op);
      AllowedGives(K(), op);
      Sizes();
      match op
      case Trap(f, other, addressOk) => var r := SysCall(f, other, addressOk);
      case Int(t, competing) => Interrupt(t, competing);
      case Flush => Unhold();
      case Quantum => Sched();
      case Signal(p, sig) => CauseSig(p, sig);
      case SignalDone(p) => var r := DoEndsig(p);
      case Died(p) => DoXit(p);
      case Mapped(p) => DoNewmap(p);
      case Forked(parent, child, pid) => DoFork(parent, child, pid);
      case Grouping(pid, group) => var r := DoSetGroup(pid, group);
    }

    // -------------------------------------------------------------- main.c

    /** main's loop: make every process but IDLE and HARDWARE ready, and pick the first to run. */
    method Boot()
      requires Valid() && Cleared(K())
      modifies this`proc_ptr, this`bill_ptr, this`lines, proc, rdy_head, rdy_tail
      ensures Valid() && K() == KernelSpec.PickProc(ReadyAll(old(K()), |old(K()).prio|)) && Inv(K())
    {
      hide Linked, Columns, Inv, Cleared, ReadyAll, KernelSpec.Ready;
      ghost var k := K();
      Sizes();
      BootInv(k);
      ReadyNone(k);
      var t := 0;
      while t < proc.Length
        invariant Valid() && 0 <= t <= proc.Length && K() == ReadyAll(k, t)
      {
        Sizes();
        Field(t);
        ReadyNext(k, t);
        if t != slots.idle && t != slots.hardware && Schedulable(proc[t].p_priority) {
          Ready(t);
        }
        t := t + 1;
      }
      PickProc();
    }
  }
}
