/** sched as an operation of the kernel: the groups of user processes take turns, call after call. */
module KernelTurns {
  import opened KernelSpec
  import opened KernelInvariant
  import opened KernelSignals
  import opened KernelRuns
  import opened KernelEffects
  import opened UserQueue

  /** One turn of the groups, and nothing else: the user queue of k2 is that of k after a turn of three
      FIFO queues, the other queues and columns are as they were, and the best process runs. */
  ghost predicate TookTurn(k: Kernel, k2: Kernel)
    requires |k.ready| == 3 && Grouped(k.ready[2], k.group)
  {
    && k2 == k.(ready := k2.ready, procPtr := k2.procPtr, billPtr := k2.billPtr)
    && if k.ready[2] == [] then k2 == k else
         && |k2.ready| == 3 && k2.ready[0] == k.ready[0] && k2.ready[1] == k.ready[1]
         && k2.ready[2] != [] && Grouped(k2.ready[2], k.group) && multiset(k2.ready[2]) == multiset(k.ready[2])
         && AsTurns(k.ready[2], k.group).Ok() && AsTurns(k2.ready[2], k.group) == Turn(AsTurns(k.ready[2], k.group))
         && BestRuns(k2)
         && k2.billPtr == if k.ready[0] == [] && k.ready[1] == [] then k2.procPtr else k.billPtr
  }

  lemma RescheduledTurn(k: Kernel)
    requires |k.ready| == 3 && Grouped(k.ready[USER_Q], k.group)
    ensures TookTurn(k, Rescheduled(k))
  {
    if k.ready[USER_Q] != [] {
      SchedRefinesTurn(k.ready[USER_Q], k.group);
      PickProcEffect(k.(ready := k.ready[USER_Q := Sched(k.ready[USER_Q], k.group)]));
    }
  }

  lemma QuantumTurn(k: Kernel)
    requires Inv(k)
    ensures Allowed(k, Quantum) && Grouped(k.ready[2], k.group) && TookTurn(k, Do(k, Quantum))
  {
    InvReads(k);
    RescheduledTurn(k);
    hide Inv, Rescheduled, TookTurn;
  }

  /** The kernel after n calls of sched. */
  ghost function Quanta(k: Kernel, n: nat): (r: Kernel)
    requires Inv(k)
    ensures Inv(r)
  {
    if n == 0 then k
    else
      var before := Quanta(k, n - 1);
      QuantumTurn(before);
      OpKeeps(before, Quantum);
      Do(before, Quantum)
  }

  /** r is k after n turns of the three FIFO queues of users. */
  ghost predicate AfterTurns(k: Kernel, r: Kernel, n: nat)
    requires Shape(k) && k.ready[2] != [] && Grouped(k.ready[2], k.group)
  {
    && r == k.(ready := r.ready, procPtr := r.procPtr, billPtr := r.billPtr)
    && |r.ready| == 3 && r.ready[0] == k.ready[0] && r.ready[1] == k.ready[1] && r.ready[2] != []
    && Grouped(r.ready[2], k.group) && multiset(r.ready[2]) == multiset(k.ready[2])
    && AsTurns(k.ready[2], k.group).Ok()
    && AsTurns(r.ready[2], k.group) == TurnTimes(AsTurns(k.ready[2], k.group), n)
    && BestRuns(r)
  }

  lemma OneTurnMore(k: Kernel, r: Kernel, n: nat, r2: Kernel)
    requires Shape(k) && k.ready[2] != [] && Grouped(k.ready[2], k.group) && AfterTurns(k, r, n)
    requires Shape(r) && Grouped(r.ready[2], r.group) && TookTurn(r, r2)
    ensures AfterTurns(k, r2, n + 1)
  {
    hide AsTurns, Turn, BestRuns, Grouped;
  }

  /** n calls of sched are n turns of the three FIFO queues. */
  lemma {:induction false} QuantaAreTurns(k: Kernel, n: nat)
    requires Inv(k) && k.ready[2] != []
    ensures Shape(k) && Grouped(k.ready[2], k.group) && AfterTurns(k, Quanta(k, n), n)
  {
    hide Inv, Do, AfterTurns, TookTurn, BestRuns, Grouped, AsTurns, Turn, Allowed;
    InvBest(k);
    QuantumTurn(k);
    HeadOfGroup(k.ready[2], k.group);
    if n > 0 {
      QuantaAreTurns(k, n - 1);
      QuantumTurn(Quanta(k, n - 1));
      InvBest(Quanta(k, n - 1));
      OneTurnMore(k, Quanta(k, n - 1), n - 1, Quanta(k, n));
    } else {
      NoTurns(k);
    }
  }

  lemma NoTurns(k: Kernel)
    requires Shape(k) && k.ready[2] != [] && Grouped(k.ready[2], k.group) && BestRuns(k) && AsTurns(k.ready[2], k.group).Ok()
    ensures AfterTurns(k, k, 0)
  {
  }

  lemma InvBest(k: Kernel)
    requires Inv(k)
    ensures BestRuns(k) && Shape(k)
  {
  }

  /** After n calls, the user queue is headed by the head of the FIFO queue whose turn it then is. */
  lemma HeadAfter(k: Kernel, n: nat)
    requires Inv(k) && k.ready[2] != []
    ensures Shape(k) && Grouped(k.ready[2], k.group) && AfterTurns(k, Quanta(k, n), n)
    ensures SchedTimes(k.ready[2], k.group, n) != []
    ensures Quanta(k, n).ready[2][0] == SchedTimes(k.ready[2], k.group, n)[0]
    ensures k.group[Quanta(k, n).ready[2][0]] == TurnTimes(AsTurns(k.ready[2], k.group), n).cur
  {
    hide Inv, Quanta, SchedTimes, TurnTimes, Members, BestRuns, Fifos, AsTurns, Grouped;
    QuantaAreTurns(k, n);
    SchedTimesRefines(k.ready[2], k.group, n);
    GroupedPermuted(k.ready[2], SchedTimes(k.ready[2], k.group, n), k.group);
    SameHead(Quanta(k, n).ready[2], SchedTimes(k.ready[2], k.group, n), k.group);
  }

  lemma GroupedPermuted(q: seq<int>, r: seq<int>, g: seq<int>)
    requires Grouped(q, g) && multiset(r) == multiset(q)
    ensures Grouped(r, g) && |r| == |q|
  {
    assert |multiset(q)| == |q| && |multiset(r)| == |r|;
    forall i | 0 <= i < |r| ensures 0 <= r[i] < |g| && 0 <= g[r[i]] < GROUPS {
      assert r[i] in multiset(r);
      assert r[i] in q;
    }
  }

  lemma SameHead(q: seq<int>, r: seq<int>, g: seq<int>)
    requires Grouped(q, g) && Grouped(r, g) && q != [] && r != [] && AsTurns(q, g) == AsTurns(r, g)
    ensures q[0] == r[0] && g[q[0]] == AsTurns(q, g).cur
  {
    HeadOfGroup(q, g);
    HeadOfGroup(r, g);
    MembersOf(q, g);
    hide Members;
  }

  lemma MembersOf(q: seq<int>, g: seq<int>)
    requires Grouped(q, g) && q != []
    ensures AsTurns(q, g).fifo[g[q[0]]] == Members(q, g, g[q[0]])
  {
  }

  lemma UsersOnce(k: Kernel)
    requires Inv(k)
    ensures forall x :: multiset(k.ready[2])[x] <= 1
  {
    forall x ensures multiset(k.ready[2])[x] <= 1 { OnceIn(k.ready[2], x); }
  }

  /** Bounded waiting of the kernel: the user at place i of its group heads the user queue after exactly
      Wait calls of sched and not before, and runs then if no task or server is ready. */
  lemma UserIsServed(k: Kernel, group: int, i: nat)
    requires Inv(k) && k.ready[2] != [] && 0 <= group < GROUPS && Grouped(k.ready[2], k.group)
    requires i < |Members(k.ready[2], k.group, group)|
    ensures AsTurns(k.ready[2], k.group).Ok()
    ensures var t, p := AsTurns(k.ready[2], k.group), Members(k.ready[2], k.group, group)[i];
            var w := Wait(t, group, i);
            && w < Present(t.fifo) * (i + 1)
            && |Quanta(k, w).ready| == 3 && Quanta(k, w).ready[2] != [] && Quanta(k, w).ready[2][0] == p
            && (k.ready[0] == [] && k.ready[1] == [] ==> Quanta(k, w).procPtr == p)
            && (forall n: nat :: n < w ==> |Quanta(k, n).ready| == 3 && Quanta(k, n).ready[2] != [] && Quanta(k, n).ready[2][0] != p)
  {
    UsersOnce(k);
    BoundedWaiting(k.ready[2], k.group, group, i);
    var t, p := AsTurns(k.ready[2], k.group), Members(k.ready[2], k.group, group)[i];
    var w := Wait(t, group, i);
    HeadAfter(k, w);
    hide Inv, Quanta, SchedTimes, TurnTimes, Members, Wait, Present, Grouped;
    forall n: nat | n < w ensures |Quanta(k, n).ready| == 3 && Quanta(k, n).ready[2] != [] && Quanta(k, n).ready[2][0] != p {
      HeadAfter(k, n);
    }
  }

  /** In every window of as many calls as there are groups with a user ready, each of these groups has a
      user at the head of the user queue after exactly one of them. */
  lemma GroupIsServed(k: Kernel, group: int, n: nat) returns (j: nat)
    requires Inv(k) && k.ready[2] != [] && 0 <= group < GROUPS && Grouped(k.ready[2], k.group)
    requires Members(k.ready[2], k.group, group) != []
    ensures AsTurns(k.ready[2], k.group).Ok()
    ensures var c := Present(AsTurns(k.ready[2], k.group).fifo);
            && n <= j < n + c
            && forall i: nat :: n <= i < n + c ==>
                 && |Quanta(k, i).ready| == 3 && Quanta(k, i).ready[2] != [] && 0 <= Quanta(k, i).ready[2][0] < |k.group|
                 && (k.group[Quanta(k, i).ready[2][0]] == group <==> i == j)
  {
    HeadOfGroup(k.ready[2], k.group);
    var t := AsTurns(k.ready[2], k.group);
    j := UpOnceInEach(t, group, n);
    var c := Present(t.fifo);
    forall i: nat | n <= i < n + c
      ensures |Quanta(k, i).ready| == 3 && Quanta(k, i).ready[2] != [] && 0 <= Quanta(k, i).ready[2][0] < |k.group|
              && (k.group[Quanta(k, i).ready[2][0]] == group <==> i == j)
    {
      HeadAfter(k, i);
    }
  }
}
