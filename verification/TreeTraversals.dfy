/** The traversals of syscalls/ as they are written: loops over arrays of the size of the process
    table, for any size and any parents. */
module TreeTraversals {
  import opened Chains
  import opened ProcessTree
  import opened TreeCount
  import opened TreePaths

  // ---------------------------------------------------------------- misc_dummy.c: counting

  method CountDescendants(mproc: array<MProc>, proc_nr: int, N: int) returns (descendants: nat)
    requires 0 <= proc_nr < mproc.Length
    ensures descendants == |Descendants(mproc[..], proc_nr, N)|
  {
    hide Searched, Descendants;
    ghost var t, found := mproc[..], [];
    var n := mproc.Length;
    var queue, depth := new int[n], new int[n];
    descendants := 0;
    var queue_start, queue_end := 0, 0;
    queue[queue_end] := proc_nr;
    depth[queue_end] := 1;
    queue_end := queue_end + 1;
    ghost var q, d := [proc_nr], [1];
    SearchStarts(t, proc_nr, N);
    while queue_start < queue_end
      invariant queue_start <= queue_end <= n && queue[..queue_end] == q && depth[..queue_end] == d
      invariant |q| == |d| == queue_end
      invariant Searched(t, proc_nr, N, q, d, found, queue_start, n) && descendants == |found|
      decreases n - queue_start
    {
      NextEntry(t, proc_nr, N, q, d, found, queue_start);
      var current_proc, current_depth := queue[queue_start], depth[queue_start];
      assert current_proc == q[queue_start] && current_depth == d[queue_start];
      queue_start := queue_start + 1;
      for i := 0 to n
        invariant 0 < queue_start <= queue_end <= n && queue[..queue_end] == q && depth[..queue_end] == d
        invariant |q| == |d| == queue_end && q[queue_start - 1] == current_proc && d[queue_start - 1] == current_depth
        invariant Searched(t, proc_nr, N, q, d, found, queue_start, i) && descendants == |found|
      {
        if mproc[i].in_use && proc_nr != i && mproc[i].mp_parent == current_proc {
          IsNew(t, proc_nr, N, q, d, found, queue_start, i);
          CountChild(t, proc_nr, N, q, d, found, queue_start, i);
          descendants := descendants + 1;
          found := found + [i];
          if current_depth < N {
            queue[queue_end] := i;
            depth[queue_end] := current_depth + 1;
            queue_end := queue_end + 1;
            q, d := q + [i], d + [current_depth + 1];
          }
        } else {
          NotAChild(t, proc_nr, N, q, d, found, queue_start, i);
        }
      }
    }
    CountIs(t, proc_nr, N, q, d, found);
  }

  /** All descendants of root, however far down. */
  ghost function AllDescendants(t: seq<MProc>, root: int): set<int> {
    set x | 0 <= x < |t| && Descends(t, root, x)
  }

  ghost predicate Descends(t: seq<MProc>, root: int, x: int)
    requires 0 <= x < |t|
  {
    exists d: nat :: 2 <= d && Down(t, InUse(t), root, x, d)
  }

  lemma NoneIsFurther(t: seq<MProc>, root: int)
    ensures AllDescendants(t, root) == Descendants(t, root, |t| + 1)
  {
    forall x | 0 <= x < |t| ensures Descends(t, root, x) <==> DescendsWithin(t, root, x, |t| + 1) {
      if Descends(t, root, x) {
        var d: nat :| 2 <= d && Down(t, InUse(t), root, x, d);
        DownBound(t, InUse(t), root, x, d);
        assert 2 <= d && (d <= |t| + 2 || d == 2) && Down(t, InUse(t), root, x, d);
      }
    }
  }

  /** An entry's generation is no more than its place in the queue. */
  lemma WithinTable(t: seq<MProc>, root: int, N: int, q: seq<int>, depth: seq<int>, found: seq<int>, s: int, i: int, k: int)
    requires Searched(t, root, N, q, depth, found, s, i) && 0 <= k < |q|
    ensures |q| == |depth| && depth[k] <= |t|
  {
    DistinctBound(q, |t|);
  }

  method CountAllDescendants(mproc: array<MProc>, proc_nr: int) returns (descendants: nat)
    requires 0 <= proc_nr < mproc.Length
    ensures descendants == |AllDescendants(mproc[..], proc_nr)|
  {
    hide Searched, AllDescendants;
    ghost var t, found := mproc[..], [];
    var n := mproc.Length;
    ghost var N := n + 1;
    var queue := new int[n];
    descendants := 0;
    var queue_start, queue_end := 0, 0;
    queue[queue_end] := proc_nr;
    queue_end := queue_end + 1;
    ghost var q, d := [proc_nr], [1];
    SearchStarts(t, proc_nr, N);
    while queue_start < queue_end
      invariant queue_start <= queue_end <= n && queue[..queue_end] == q && |q| == |d| == queue_end
      invariant Searched(t, proc_nr, N, q, d, found, queue_start, n) && descendants == |found|
      decreases n - queue_start
    {
      NextEntry(t, proc_nr, N, q, d, found, queue_start);
      var current_proc := queue[queue_start];
      assert current_proc == q[queue_start];
      queue_start := queue_start + 1;
      for i := 0 to n
        invariant 0 < queue_start <= queue_end <= n && queue[..queue_end] == q && |q| == |d| == queue_end
        invariant q[queue_start - 1] == current_proc
        invariant Searched(t, proc_nr, N, q, d, found, queue_start, i) && descendants == |found|
      {
        if mproc[i].in_use && proc_nr != i && mproc[i].mp_parent == current_proc {
          IsNew(t, proc_nr, N, q, d, found, queue_start, i);
          WithinTable(t, proc_nr, N, q, d, found, queue_start, i, queue_start - 1);
          CountChild(t, proc_nr, N, q, d, found, queue_start, i);
          descendants := descendants + 1;
          found := found + [i];
          queue[queue_end] := i;
          queue_end := queue_end + 1;
          q, d := q + [i], d + [d[queue_start - 1] + 1];
        } else {
          NotAChild(t, proc_nr, N, q, d, found, queue_start, i);
        }
      }
    }
    CountIs(t, proc_nr, N, q, d, found);
    NoneIsFurther(t, proc_nr);
  }

  method CountDescendantsRecursive(mproc: array<MProc>, proc_nr: int, curr_depth: int, N: int) returns (descendants: nat)
    ensures descendants == Recursive(mproc[..], proc_nr, curr_depth, N, 0)
    decreases if N > curr_depth then N - curr_depth else 0
  {
    descendants := 0;
    for i := 0 to mproc.Length
      invariant descendants + Recursive(mproc[..], proc_nr, curr_depth, N, i) == Recursive(mproc[..], proc_nr, curr_depth, N, 0)
    {
      if mproc[i].in_use && proc_nr != i && mproc[i].mp_parent == proc_nr {
        if curr_depth < N {
          var below := CountDescendantsRecursive(mproc, i, curr_depth + 1, N);
          descendants := descendants + below;
        }
        descendants := descendants + 1;
      }
    }
  }

  // ---------------------------------------------------------------- the best of all processes

  /** The first process with the highest score above -1, and its pid; -1 and -1 if there is none. */
  ghost predicate FirstBest(t: seq<MProc>, score: seq<int>, best: int, who: int)
    requires |score| <= |t|
  {
    if best == -1 then who == -1 && forall k :: 0 <= k < |score| ==> score[k] <= -1
    else best > -1 && exists k :: 0 <= k < |score| && IsFirstBest(t, score, k) && score[k] == best && who == t[k].mp_pid
  }

  ghost predicate IsFirstBest(t: seq<MProc>, score: seq<int>, k: int)
    requires 0 <= k < |score|
  {
    (forall j :: 0 <= j < |score| ==> score[j] <= score[k]) && (forall j :: 0 <= j < k ==> score[j] < score[k])
  }

  lemma BetterOrNot(t: seq<MProc>, score: seq<int>, best: int, who: int, s: int)
    requires |score| < |t| && FirstBest(t, score, best, who) && s >= -1
    ensures if s > best then FirstBest(t, score + [s], s, t[|score|].mp_pid) else FirstBest(t, score + [s], best, who)
  {
  }

  function DescendantScores(t: seq<MProc>, N: int, n: nat): (score: seq<int>)
    requires n <= |t|
    ensures |score| == n
  {
    if n == 0 then []
    else DescendantScores(t, N, n - 1) + [if t[n - 1].in_use then Recursive(t, n - 1, 1, N, 0) else -1]
  }

  /** What the scores are meant to be: the numbers of descendants. */
  ghost function CountScores(t: seq<MProc>, N: int, n: nat): (score: seq<int>)
    requires n <= |t|
  {
    seq(n, k requires 0 <= k < n => if t[k].in_use then |Descendants(t, k, N)| else -1)
  }

  /** They are, for processes not below themselves, and never less. */
  lemma {:induction false} ScoresCount(t: seq<MProc>, N: int, n: nat)
    requires n <= |t|
    ensures forall k :: 0 <= k < n ==>
              var s := DescendantScores(t, N, n)[k];
              if !t[k].in_use then s == -1
              else s >= |Descendants(t, k, N)| && (s == |Descendants(t, k, N)| <==> !OnCycle(t, k, N))
    ensures (forall k :: 0 <= k < n && t[k].in_use ==> !OnCycle(t, k, N)) ==> DescendantScores(t, N, n) == CountScores(t, N, n)
  {
    if n > 0 {
      ScoresCount(t, N, n - 1);
      RecursionCountsExactly(t, n - 1, N);
      hide Recursive, Descendants, OnCycle;
      var before := DescendantScores(t, N, n - 1);
      forall k | 0 <= k < n - 1 ensures DescendantScores(t, N, n)[k] == before[k] {}
    }
  }

  method MaxNDescendants(mproc: array<MProc>, N: int) returns (max_desc: int, who: int)
    ensures FirstBest(mproc[..], DescendantScores(mproc[..], N, mproc.Length), max_desc, who)
    ensures forall k :: 0 <= k < mproc.Length && mproc[k].in_use ==> max_desc >= |Descendants(mproc[..], k, N)|
    ensures (forall k :: 0 <= k < mproc.Length && mproc[k].in_use ==> !OnCycle(mproc[..], k, N)) ==>
              FirstBest(mproc[..], CountScores(mproc[..], N, mproc.Length), max_desc, who)
  {
    ScoresCount(mproc[..], N, mproc.Length);
    max_desc, who := -1, -1;
    ghost var t := mproc[..];
    for proc_nr := 0 to mproc.Length
      invariant FirstBest(t, DescendantScores(t, N, proc_nr), max_desc, who)
    {
      if mproc[proc_nr].in_use {
        var descendants := CountDescendantsRecursive(mproc, proc_nr, 1, N);
        BetterOrNot(t, DescendantScores(t, N, proc_nr), max_desc, who, descendants);
        if descendants > max_desc {
          max_desc, who := descendants, mproc[proc_nr].mp_pid;
        }
      } else {
        BetterOrNot(t, DescendantScores(t, N, proc_nr), max_desc, who, -1);
        AtLeastNone(t, DescendantScores(t, N, proc_nr), max_desc, who);
      }
    }
  }

  lemma AtLeastNone(t: seq<MProc>, score: seq<int>, best: int, who: int)
    requires |score| <= |t| && FirstBest(t, score, best, who)
    ensures best >= -1
  {
  }

  // ---------------------------------------------------------------- misc.c: the longest path

  /** A push on a full stack is dropped. */
  method PushToStack(stack: array<int>, depth: array<int>, top: int, procNr: int, procDepth: int) returns (newTop: int)
    requires stack != depth && stack.Length == depth.Length && 0 <= top <= stack.Length
    modifies stack, depth
    ensures top == stack.Length ==> newTop == top && stack[..] == old(stack[..]) && depth[..] == old(depth[..])
    ensures top < stack.Length ==> newTop == top + 1
    ensures top < stack.Length ==> stack[..newTop] == old(stack[..top]) + [procNr] && depth[..newTop] == old(depth[..top]) + [procDepth]
  {
    if top >= stack.Length { return top; }
    stack[top] := procNr;
    depth[top] := procDepth;
    newTop := top + 1;
  }

  method ProcHasChildren(mproc: array<MProc>, currentProc: int) returns (has: bool)
    ensures has <==> !Childless(mproc[..], currentProc)
  {
    for procNr := 0 to mproc.Length
      invariant forall i :: 0 <= i < procNr ==> !IsChild(mproc[..], currentProc, i)
    {
      if mproc[procNr].in_use && mproc[procNr].mp_parent == currentProc {
        assert IsChild(mproc[..], currentProc, procNr);
        return true;
      }
    }
    return false;
  }

  /** No push is dropped. */
  method PushChildrenToStack(mproc: array<MProc>, stack: array<int>, depth: array<int>, top: int, currentProc: int,
                             procDepth: int, excluded: int, ghost order: seq<int>, ghost gen: seq<nat>)
    returns (newTop: int)
    requires stack != depth && stack.Length == depth.Length == mproc.Length && 0 <= top <= stack.Length
    requires var t, live := mproc[..], Passable(mproc[..], excluded);
             && |gen| == |t| && 0 <= currentProc < |t| && currentProc in order && procDepth == gen[currentProc]
             && Stacked(t, live, stack[..top], depth[..top], order, gen, currentProc, 0)
             && Closed(t, live, stack[..top], order, currentProc, 0)
    modifies stack, depth
    ensures 0 <= newTop <= stack.Length
    ensures var t, live := mproc[..], Passable(mproc[..], excluded);
            && Stacked(t, live, stack[..newTop], depth[..newTop], order, gen, currentProc, |t|)
            && Closed(t, live, stack[..newTop], order, currentProc, |t|)
  {
    hide Stacked, Closed;
    ghost var t, live := mproc[..], Passable(mproc[..], excluded);
    newTop := top;
    for i := 0 to mproc.Length
      invariant 0 <= newTop <= stack.Length
      invariant Stacked(t, live, stack[..newTop], depth[..newTop], order, gen, currentProc, i)
      invariant Closed(t, live, stack[..newTop], order, currentProc, i)
      invariant mproc[..] == t
    {
      PushChild(t, live, stack[..newTop], depth[..newTop], order, gen, currentProc, i);
      if mproc[i].in_use && mproc[i].mp_parent == currentProc && mproc[i].mp_pid != excluded {
        PushFits(t, live, stack[..newTop], depth[..newTop], order, gen, currentProc, i);
        newTop := PushToStack(stack, depth, newTop, i, procDepth + 1);
      }
    }
  }

  /** The part of the search that follows the visit of a process: its depth counts if it has no
      children, and otherwise they are pushed. */
  method Expand(mproc: array<MProc>, stack: array<int>, depth: array<int>, top: int, currentProc: int, currentDepth: int,
                excluded: int, maxDepth: int, ghost start: int, ghost visited: seq<bool>, ghost order: seq<int>, ghost gen: seq<nat>)
    returns (newTop: int, newMax: int)
    requires stack != depth && stack.Length == depth.Length == mproc.Length && 0 <= top <= stack.Length
    requires var t, live := mproc[..], Passable(mproc[..], excluded);
             && |gen| == |t| && 0 <= currentProc < |t| && currentProc in order && currentDepth == gen[currentProc]
             && Visited(t, live, start, visited, order, gen) && start in order
             && Stacked(t, live, stack[..top], depth[..top], order, gen, currentProc, 0)
             && Closed(t, live, stack[..top], order, currentProc, 0)
             && (forall v :: v in order ==> 0 <= v < |gen|)
             && Best(t, order, gen, if Childless(t, currentProc) && currentDepth > maxDepth then currentDepth else maxDepth)
    modifies stack, depth
    ensures 0 <= newTop <= stack.Length
    ensures Searching(mproc[..], Passable(mproc[..], excluded), start, stack[..newTop], depth[..newTop], visited, order, gen, newMax)
  {
    hide Searching, Begins, Walked, Visited, Stacked, Closed, Best, Childless;
    ghost var t, live := mproc[..], Passable(mproc[..], excluded);
    newTop, newMax := top, maxDepth;
    var has := ProcHasChildren(mproc, currentProc);
    if !has {
      if currentDepth > maxDepth {
        newMax := currentDepth;
      }
      NothingToPush(t, live, stack[..top], depth[..top], order, gen, currentProc);
    } else {
      newTop := PushChildrenToStack(mproc, stack, depth, top, currentProc, currentDepth, excluded, order, gen);
      AllPushed(t, live, stack[..newTop], depth[..newTop], order, gen, currentProc);
    }
    Goes(t, live, start, stack[..newTop], depth[..newTop], visited, order, gen, newMax);
  }

  method DeterminePathToChildless(mproc: array<MProc>, start_proc: int, excluded: int) returns (maxDepth: int)
    requires 0 <= start_proc < mproc.Length
    ensures IsLongest(mproc[..], Passable(mproc[..], excluded), start_proc, maxDepth)
  {
    hide Searching, Begins, Walked, Visited, Stacked, Closed, Best, IsLongest, Childless;
    ghost var t, live := mproc[..], Passable(mproc[..], excluded);
    var n := mproc.Length;
    maxDepth := -1;
    var stack, depth := new int[n], new int[n];
    var visitedProcs := new bool[n](_ => false);
    ghost var order: seq<int> := [];
    ghost var gen: seq<nat> := seq(n, _ => 0);
    var top := PushToStack(stack, depth, 0, start_proc, 1);
    SearchBegins(t, live, start_proc, visitedProcs[..], gen);
    assert stack[..top] == [start_proc] && depth[..top] == [1];
    while top > 0
      invariant 0 <= top <= n && mproc[..] == t
      invariant Searching(t, live, start_proc, stack[..top], depth[..top], visitedProcs[..], order, gen, maxDepth)
      decreases n - |order|, top
    {
      ghost var s, d, v, best := stack[..top], depth[..top], visitedProcs[..], maxDepth;
      Fits(t, live, start_proc, s, d, v, order, gen, best);
      top := top - 1;
      var currentProc, currentDepth := stack[top], depth[top];
      assert s[top] == currentProc && d[top] == currentDepth && s[..top] == stack[..top] && d[..top] == depth[..top];
      if mproc[currentProc].mp_pid == excluded || !mproc[currentProc].in_use {
        PopSkips(t, live, start_proc, s, d, v, order, gen, best);
        continue;
      }
      if visitedProcs[currentProc] {
        PopSkips(t, live, start_proc, s, d, v, order, gen, best);
        continue;
      }
      PopVisits(t, live, start_proc, s, d, v, order, gen, best);
      visitedProcs[currentProc] := true;
      assert visitedProcs[..] == v[currentProc := true];
      BestMore(t, order, gen, best, currentProc, currentDepth);
      order, gen := order + [currentProc], gen[currentProc := currentDepth];
      top, maxDepth := Expand(mproc, stack, depth, top, currentProc, currentDepth, excluded, maxDepth, start_proc,
                              visitedProcs[..], order, gen);
      Fits(t, live, start_proc, stack[..top], depth[..top], visitedProcs[..], order, gen, maxDepth);
    }
    assert stack[..top] == [] && depth[..top] == [];
    NotAtStart(t, live, start_proc, visitedProcs[..], order, gen, maxDepth);
    SearchEnds(t, live, start_proc, visitedProcs[..], order, gen, maxDepth);
  }

  /** The scores longestChildlessChain compares: one for each process before n; -1 for those not in
      use, and for the one excluded. */
  ghost predicate AreScores(t: seq<MProc>, excluded: int, score: seq<int>)
    requires |score| <= |t|
  {
    forall k :: 0 <= k < |score| ==>
      if t[k].in_use && t[k].mp_pid != excluded then IsLongest(t, Passable(t, excluded), k, score[k]) else score[k] == -1
  }

  method LongestChildlessChain(mproc: array<MProc>, excluded: int) returns (longestPath: int, who: int)
    ensures exists score: seq<int> :: |score| == mproc.Length && AreScores(mproc[..], excluded, score)
                                      && FirstBest(mproc[..], score, longestPath, who)
  {
    hide IsLongest, FirstBest;
    ghost var t := mproc[..];
    longestPath, who := -1, -1;
    ghost var score: seq<int> := [];
    NoneYet(t);
    for procNr := 0 to mproc.Length
      invariant |score| == procNr && AreScores(t, excluded, score) && FirstBest(t, score, longestPath, who)
    {
      var currentDepth := -1;
      AtLeastNone(t, score, longestPath, who);
      if mproc[procNr].in_use && mproc[procNr].mp_pid != excluded {
        currentDepth := DeterminePathToChildless(mproc, procNr, excluded);
        LongestIsScore(t, Passable(t, excluded), procNr, currentDepth);
      }
      BetterOrNot(t, score, longestPath, who, currentDepth);
      score := score + [currentDepth];
      if currentDepth > longestPath {
        longestPath, who := currentDepth, mproc[procNr].mp_pid;
      }
    }
  }

  lemma NoneYet(t: seq<MProc>)
    ensures FirstBest(t, [], -1, -1)
  {
  }

  lemma LongestIsScore(t: seq<MProc>, live: seq<bool>, start: int, r: int)
    requires |live| == |t| && 0 <= start < |t| && IsLongest(t, live, start, r)
    ensures r >= -1
  {
  }
}
