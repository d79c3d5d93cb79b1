/** The graph "is sending to": every process has at most one edge, so paths are walks. */
module SendGraph {
  import opened Chains
  import opened KernelSpec

  /** No process is, through others, waiting for itself. */
  ghost predicate Acyclic(flags: seq<set<Flag>>, sendto: seq<int>)
    requires Wired(flags, sendto)
  {
    forall p, n: nat :: 0 <= p < |flags| && n > 0 ==> Walk(flags, sendto, p, n) != At(p)
  }

  lemma {:induction false} WalkOn(flags: seq<set<Flag>>, sendto: seq<int>, p: int, m: nat, n: nat)
    requires Wired(flags, sendto) && 0 <= p < |flags|
    ensures var w := Walk(flags, sendto, p, m);
            Walk(flags, sendto, p, m + n) == if w.At? then Walk(flags, sendto, w.p, n) else Ended
    decreases m
  {
    if m > 0 && SENDING in flags[p] { WalkOn(flags, sendto, sendto[p], m - 1, n); }
  }

  /** Fewer edges, shorter walks: what is still reached was reached before. */
  lemma {:induction false} WalkFewer(flags: seq<set<Flag>>, sendto: seq<int>, flags': seq<set<Flag>>, sendto': seq<int>, p: int, n: nat)
    requires Wired(flags, sendto) && Wired(flags', sendto') && |flags'| == |flags| && 0 <= p < |flags|
    requires forall i :: 0 <= i < |flags| && SENDING in flags'[i] ==> SENDING in flags[i] && sendto'[i] == sendto[i]
    ensures Walk(flags', sendto', p, n).At? ==> Walk(flags', sendto', p, n) == Walk(flags, sendto, p, n)
    decreases n
  {
    if n > 0 && SENDING in flags'[p] { WalkFewer(flags, sendto, flags', sendto', sendto[p], n - 1); }
  }

  lemma AcyclicFewer(flags: seq<set<Flag>>, sendto: seq<int>, flags': seq<set<Flag>>, sendto': seq<int>)
    requires Wired(flags, sendto) && Wired(flags', sendto') && |flags'| == |flags|
    requires forall i :: 0 <= i < |flags| && SENDING in flags'[i] ==> SENDING in flags[i] && sendto'[i] == sendto[i]
    requires Acyclic(flags, sendto)
    ensures Acyclic(flags', sendto')
  {
    forall p, n: nat | 0 <= p < |flags| && n > 0
      ensures Walk(flags', sendto', p, n) != At(p)
    {
      WalkFewer(flags, sendto, flags', sendto', p, n);
    }
  }

  /** The edge caller -> dest is added; flags and sendto are otherwise as before. */
  ghost predicate Added(flags: seq<set<Flag>>, sendto: seq<int>, flags': seq<set<Flag>>, sendto': seq<int>, caller: int, dest: int) {
    && Wired(flags, sendto) && Wired(flags', sendto') && |flags'| == |flags|
    && 0 <= caller < |flags| && 0 <= dest < |flags|
    && SENDING !in flags[caller] && SENDING in flags'[caller] && sendto'[caller] == dest
    && (forall i :: 0 <= i < |flags| && i != caller ==>
          (SENDING in flags'[i] <==> SENDING in flags[i]) && sendto'[i] == sendto[i])
  }

  /** Until a walk comes to the caller, the new edge makes no difference. */
  lemma {:induction false} WalkAdded(flags: seq<set<Flag>>, sendto: seq<int>, flags': seq<set<Flag>>, sendto': seq<int>, caller: int, dest: int, p: int, n: nat)
    requires Added(flags, sendto, flags', sendto', caller, dest) && 0 <= p < |flags|
    requires forall m: nat :: m < n ==> Walk(flags, sendto, p, m) != At(caller)
    ensures Walk(flags', sendto', p, n) == Walk(flags, sendto, p, n)
    decreases n
  {
    if n > 0 {
      assert Walk(flags, sendto, p, 0) == At(p);
      if SENDING in flags[p] {
        forall m: nat | m < n - 1 ensures Walk(flags, sendto, sendto[p], m) != At(caller) {
          assert Walk(flags, sendto, p, m + 1) == Walk(flags, sendto, sendto[p], m);
        }
        WalkAdded(flags, sendto, flags', sendto', caller, dest, sendto[p], n - 1);
      }
    }
  }

  /** A new edge closes a cycle exactly when its end already led back to its start. */
  lemma EdgeClosesCycle(flags: seq<set<Flag>>, sendto: seq<int>, flags': seq<set<Flag>>, sendto': seq<int>, caller: int, dest: int)
    requires Added(flags, sendto, flags', sendto', caller, dest) && Acyclic(flags, sendto)
    ensures Acyclic(flags', sendto') <==> !Reaches(flags, sendto, dest, caller)
  {
    if Reaches(flags, sendto, dest, caller) {
      var n := FirstTime(flags, sendto, dest, caller);
      WalkAdded(flags, sendto, flags', sendto', caller, dest, dest, n);
      assert Walk(flags', sendto', caller, n + 1) == Walk(flags', sendto', dest, n) == At(caller);
    } else {
      forall p, n: nat | 0 <= p < |flags| && n > 0
        ensures Walk(flags', sendto', p, n) != At(p)
      {
        NoNewCycle(flags, sendto, flags', sendto', caller, dest, p, n);
      }
    }
  }

  lemma {:induction false} FirstTimeFrom(flags: seq<set<Flag>>, sendto: seq<int>, p: int, q: int, n: nat) returns (m: nat)
    requires Wired(flags, sendto) && 0 <= p < |flags| && Walk(flags, sendto, p, n) == At(q)
    ensures m <= n && Walk(flags, sendto, p, m) == At(q)
    ensures forall j: nat :: j < m ==> Walk(flags, sendto, p, j) != At(q)
  {
    if j: nat :| j < n && Walk(flags, sendto, p, j) == At(q) {
      m := FirstTimeFrom(flags, sendto, p, q, j);
    } else {
      m := n;
    }
  }

  lemma FirstTime(flags: seq<set<Flag>>, sendto: seq<int>, p: int, q: int) returns (n: nat)
    requires Wired(flags, sendto) && 0 <= p < |flags| && Reaches(flags, sendto, p, q)
    ensures Walk(flags, sendto, p, n) == At(q) && forall m: nat :: m < n ==> Walk(flags, sendto, p, m) != At(q)
  {
    var j: nat :| Walk(flags, sendto, p, j) == At(q);
    n := FirstTimeFrom(flags, sendto, p, q, j);
  }

  lemma NoNewCycle(flags: seq<set<Flag>>, sendto: seq<int>, flags': seq<set<Flag>>, sendto': seq<int>, caller: int, dest: int, p: int, n: nat)
    requires Added(flags, sendto, flags', sendto', caller, dest) && Acyclic(flags, sendto)
    requires !Reaches(flags, sendto, dest, caller) && 0 <= p < |flags| && n > 0
    ensures Walk(flags', sendto', p, n) != At(p)
  {
    if j: nat :| j < n && Walk(flags, sendto, p, j) == At(caller) {
      // The walk takes the new edge at its first visit to the caller, and never comes back to it.
      var m := FirstTimeFrom(flags, sendto, p, caller, j);
      WalkAdded(flags, sendto, flags', sendto', caller, dest, p, m);
      WalkOn(flags', sendto', p, m, n - m);
      var r := n - m - 1;
      forall i: nat ensures Walk(flags, sendto, dest, i) != At(caller) {}
      WalkAdded(flags, sendto, flags', sendto', caller, dest, dest, r);
      assert Walk(flags', sendto', p, n) == Walk(flags, sendto, dest, r);
      WalkOn(flags, sendto, dest, r, m);
    } else {
      WalkAdded(flags, sendto, flags', sendto', caller, dest, p, n);
    }
  }

  lemma {:induction false} WalkShorter(flags: seq<set<Flag>>, sendto: seq<int>, p: int, m: nat, n: nat)
    requires Wired(flags, sendto) && 0 <= p < |flags| && m <= n && Walk(flags, sendto, p, n).At?
    ensures Walk(flags, sendto, p, m).At?
  {
    WalkOn(flags, sendto, p, m, n - m);
  }

  /** Without cycles a walk visits no process twice, so it ends within the size of the table. */
  lemma WalkEnds(flags: seq<set<Flag>>, sendto: seq<int>, p: int, n: nat)
    requires Wired(flags, sendto) && 0 <= p < |flags| && Acyclic(flags, sendto)
    ensures Walk(flags, sendto, p, n).At? ==> n < |flags|
  {
    if Walk(flags, sendto, p, n).At? {
      forall i: nat | i <= n ensures Walk(flags, sendto, p, i).At? { WalkShorter(flags, sendto, p, i, n); }
      var visited := seq(n + 1, i requires 0 <= i <= n => Walk(flags, sendto, p, i).p);
      forall i, j | 0 <= i < j < |visited|
        ensures visited[i] != visited[j]
      {
        WalkOn(flags, sendto, p, i, j - i);
      }
      DistinctBound(visited, |flags|);
    }
  }
}
