/** countDescendants and countAllDescendants of syscalls/dummy/misc_dummy.c: a queue of processes,
    in one array as long as the process table. */
module TreeCount {
  import opened Chains
  import opened ProcessTree

  // ---------------------------------------------------------------- the queue, on values

  /** Child x of queue entry k has been looked at: s entries have been taken off the queue, and of
      the last of them the children below i. */
  predicate Seen(s: int, i: int, k: int, x: int) {
    k < s - 1 || (k == s - 1 && x < i)
  }

  /** What stands in the queue: processes below the root, each once, with their generation. */
  ghost predicate Queued(t: seq<MProc>, root: int, N: int, q: seq<int>, depth: seq<int>) {
    && |q| == |depth| >= 1 && q[0] == root && depth[0] == 1 && Distinct(q)
    && forall j :: 0 <= j < |q| ==>
         && 0 <= q[j] < |t| && 1 <= depth[j] <= j + 1 && (depth[j] <= N || depth[j] == 1)
         && Down(t, InUse(t), root, q[j], depth[j])
  }

  ghost predicate SeenUnder(t: seq<MProc>, q: seq<int>, s: int, i: int, x: int)
    requires 0 <= x < |t| && s <= |q|
  {
    exists k :: 0 <= k < s && q[k] == t[x].mp_parent && Seen(s, i, k, x)
  }

  /** The processes counted so far. */
  ghost predicate Found(t: seq<MProc>, root: int, q: seq<int>, found: seq<int>, s: int, i: int)
    requires s <= |q|
  {
    && Distinct(found)
    && (forall x :: x in found ==> 0 <= x < |t| && t[x].in_use && x != root && SeenUnder(t, q, s, i, x))
    && (forall j :: 1 <= j < |q| ==> q[j] in found)
  }

  /** Every child looked at is counted, and is in the queue unless it is too far down. */
  ghost predicate Complete(t: seq<MProc>, root: int, N: int, q: seq<int>, depth: seq<int>, found: seq<int>, s: int, i: int)
    requires 0 <= s <= |q| == |depth|
  {
    forall k, x :: 0 <= k < s && 0 <= x < |t| && Seen(s, i, k, x) && IsChild(t, q[k], x) && x != root ==>
      x in found && (depth[k] < N ==> x in q)
  }

  ghost predicate Searched(t: seq<MProc>, root: int, N: int, q: seq<int>, depth: seq<int>, found: seq<int>, s: int, i: int) {
    && 0 <= root < |t| && 0 <= s <= |q| && 0 <= i <= |t|
    && Queued(t, root, N, q, depth) && Found(t, root, q, found, s, i) && Complete(t, root, N, q, depth, found, s, i)
  }

  lemma SearchStarts(t: seq<MProc>, root: int, N: int)
    requires 0 <= root < |t|
    ensures Searched(t, root, N, [root], [1], [], 0, |t|)
  {
  }

  lemma NextEntry(t: seq<MProc>, root: int, N: int, q: seq<int>, depth: seq<int>, found: seq<int>, s: int)
    requires Searched(t, root, N, q, depth, found, s, |t|) && s < |q|
    ensures Searched(t, root, N, q, depth, found, s + 1, 0)
  {
    FoundNext(t, root, q, found, s);
    CompleteNext(t, root, N, q, depth, found, s);
    hide Found, Complete;
  }

  lemma FoundNext(t: seq<MProc>, root: int, q: seq<int>, found: seq<int>, s: int)
    requires 0 <= s < |q| && Found(t, root, q, found, s, |t|)
    ensures Found(t, root, q, found, s + 1, 0)
  {
  }

  lemma CompleteNext(t: seq<MProc>, root: int, N: int, q: seq<int>, depth: seq<int>, found: seq<int>, s: int)
    requires 0 <= s < |q| == |depth| && Complete(t, root, N, q, depth, found, s, |t|)
    ensures Complete(t, root, N, q, depth, found, s + 1, 0)
  {
  }

  lemma FoundStill(t: seq<MProc>, root: int, q: seq<int>, found: seq<int>, s: int, i: int)
    requires 0 < s <= |q| && Found(t, root, q, found, s, i)
    ensures Found(t, root, q, found, s, i + 1)
  {
  }

  lemma NotAChild(t: seq<MProc>, root: int, N: int, q: seq<int>, depth: seq<int>, found: seq<int>, s: int, i: int)
    requires Searched(t, root, N, q, depth, found, s, i) && 0 < s && i < |t|
    requires !(IsChild(t, q[s - 1], i) && i != root)
    ensures Searched(t, root, N, q, depth, found, s, i + 1)
  {
    FoundStill(t, root, q, found, s, i);
    CompleteStill(t, root, N, q, depth, found, s, i);
    hide Found, Complete;
  }

  lemma CompleteStill(t: seq<MProc>, root: int, N: int, q: seq<int>, depth: seq<int>, found: seq<int>, s: int, i: int)
    requires 0 < s <= |q| == |depth| && 0 <= i < |t| && Complete(t, root, N, q, depth, found, s, i)
    requires !(IsChild(t, q[s - 1], i) && i != root)
    ensures Complete(t, root, N, q, depth, found, s, i + 1)
  {
  }

  lemma NotSeenYet(t: seq<MProc>, q: seq<int>, s: int, i: int)
    requires Distinct(q) && 0 < s <= |q| && 0 <= i < |t| && t[i].mp_parent == q[s - 1]
    ensures !SeenUnder(t, q, s, i, i)
  {
  }

  /** A child is counted for the first time, so it is not in the queue yet, and the queue has room. */
  lemma IsNew(t: seq<MProc>, root: int, N: int, q: seq<int>, depth: seq<int>, found: seq<int>, s: int, i: int)
    requires Searched(t, root, N, q, depth, found, s, i) && 0 < s && i < |t| && IsChild(t, q[s - 1], i) && i != root
    ensures i !in found && i !in q && |depth| == |q| < |t|
  {
    NotSeenYet(t, q, s, i);
    hide SeenUnder, Complete;
    forall j | 0 <= j < |q| ensures q[j] != i {
      if j > 0 { assert q[j] in found; }
    }
    DistinctBound(q + [i], |t|);
  }

  lemma CountChild(t: seq<MProc>, root: int, N: int, q: seq<int>, depth: seq<int>, found: seq<int>, s: int, i: int)
    requires Searched(t, root, N, q, depth, found, s, i) && 0 < s && i < |t| && IsChild(t, q[s - 1], i) && i != root
    ensures depth[s - 1] >= N ==> Searched(t, root, N, q, depth, found + [i], s, i + 1)
    ensures depth[s - 1] < N ==>
              Searched(t, root, N, q + [i], depth + [depth[s - 1] + 1], found + [i], s, i + 1)
  {
    hide Queued, Complete, Found;
    IsNew(t, root, N, q, depth, found, s, i);
    CountedFound(t, root, q, found, s, i);
    CountedComplete(t, root, N, q, depth, found, s, i);
    if depth[s - 1] < N {
      EnqueuedQueued(t, root, N, q, depth, s, i);
    }
  }

  lemma CountedFound(t: seq<MProc>, root: int, q: seq<int>, found: seq<int>, s: int, i: int)
    requires 0 < s <= |q| && 0 <= i < |t| && Found(t, root, q, found, s, i) && i !in found
    requires IsChild(t, q[s - 1], i) && i != root
    ensures Found(t, root, q, found + [i], s, i + 1) && Found(t, root, q + [i], found + [i], s, i + 1)
  {
  }

  lemma CountedComplete(t: seq<MProc>, root: int, N: int, q: seq<int>, depth: seq<int>, found: seq<int>, s: int, i: int)
    requires 0 < s <= |q| == |depth| && 0 <= i < |t| && Complete(t, root, N, q, depth, found, s, i)
    ensures depth[s - 1] >= N ==> Complete(t, root, N, q, depth, found + [i], s, i + 1)
    ensures Complete(t, root, N, q + [i], depth + [depth[s - 1] + 1], found + [i], s, i + 1)
  {
  }

  lemma EnqueuedQueued(t: seq<MProc>, root: int, N: int, q: seq<int>, depth: seq<int>, s: int, i: int)
    requires Queued(t, root, N, q, depth) && 0 < s <= |q| && 0 <= i < |t| && i !in q
    requires IsChild(t, q[s - 1], i) && i != root && depth[s - 1] < N
    ensures Queued(t, root, N, q + [i], depth + [depth[s - 1] + 1])
  {
  }

  // ---------------------------------------------------------------- what is counted

  /** The descendants of root, down to generation N + 1 (children when N is below 1). */
  ghost function Descendants(t: seq<MProc>, root: int, N: int): set<int> {
    set x | 0 <= x < |t| && DescendsWithin(t, root, x, N)
  }

  ghost predicate DescendsWithin(t: seq<MProc>, root: int, x: int, N: int)
    requires 0 <= x < |t|
  {
    exists d: nat :: 2 <= d && (d <= N + 1 || d == 2) && Down(t, InUse(t), root, x, d)
  }

  lemma FoundDescend(t: seq<MProc>, root: int, N: int, q: seq<int>, depth: seq<int>, found: seq<int>, s: int, i: int, x: int)
    requires Searched(t, root, N, q, depth, found, s, i) && x in found
    ensures 0 <= x < |t| && DescendsWithin(t, root, x, N)
  {
    assert SeenUnder(t, q, s, i, x);
    var k :| 0 <= k < s && q[k] == t[x].mp_parent && Seen(s, i, k, x);
    ChildIsDown(t, root, q[k], depth[k], x);
    var d: nat := depth[k] + 1;
    assert Down(t, InUse(t), root, x, d);
  }

  /** Once the queue is empty nobody below the root was missed. */
  lemma {:induction false} DescendantsFound(t: seq<MProc>, root: int, N: int, q: seq<int>, depth: seq<int>, found: seq<int>, x: int, d: nat)
    requires Searched(t, root, N, q, depth, found, |q|, |t|) && 0 <= x < |t|
    requires 2 <= d && (d <= N + 1 || d == 2) && Down(t, InUse(t), root, x, d)
    ensures x in found && (d <= N ==> x in q)
    decreases d
  {
    var p := t[x].mp_parent;
    if d > 2 { DescendantsFound(t, root, N, q, depth, found, p, d - 1); }
    assert q[0] == root;
    assert p in q;
    var k :| 0 <= k < |q| && q[k] == p;
    DownUnique(t, InUse(t), root, p, d - 1, depth[k]);
    assert Seen(|q|, |t|, k, x);
  }

  lemma CountIs(t: seq<MProc>, root: int, N: int, q: seq<int>, depth: seq<int>, found: seq<int>)
    requires Searched(t, root, N, q, depth, found, |q|, |t|)
    ensures |found| == |Descendants(t, root, N)|
  {
    forall x | x in found ensures 0 <= x < |t| && DescendsWithin(t, root, x, N) {
      FoundDescend(t, root, N, q, depth, found, |q|, |t|, x);
    }
    forall x | 0 <= x < |t| && DescendsWithin(t, root, x, N) ensures x in found {
      var d: nat :| 2 <= d && (d <= N + 1 || d == 2) && Down(t, InUse(t), root, x, d);
      DescendantsFound(t, root, N, q, depth, found, x, d);
    }
    DistinctSize(found);
    hide Searched, DescendsWithin;
    forall x ensures x in Elements(found) <==> x in Descendants(t, root, N) {
      assert x in Elements(found) <==> x in found;
    }
    assert Elements(found) == Descendants(t, root, N);
  }

  // ---------------------------------------------------------------- the same count by recursion

  /** What the recursion still adds for the entries behind the first s. */
  ghost function Pending(t: seq<MProc>, root: int, N: int, q: seq<int>, depth: seq<int>, s: nat): nat
    requires s <= |q| == |depth|
    decreases |q| - s
  {
    if s == |q| then 0 else Rooted(t, root, q[s], depth[s], N, 0) + Pending(t, root, N, q, depth, s + 1)
  }

  lemma {:induction false} PendingMore(t: seq<MProc>, root: int, N: int, q: seq<int>, depth: seq<int>, s: nat, x: int, d: int)
    requires s <= |q| == |depth|
    ensures Pending(t, root, N, q + [x], depth + [d], s) == Pending(t, root, N, q, depth, s) + Rooted(t, root, x, d, N, 0)
    decreases |q| - s
  {
    if s < |q| {
      PendingMore(t, root, N, q, depth, s + 1, x, d);
    } else {
      assert Pending(t, root, N, q + [x], depth + [d], s + 1) == 0;
    }
  }

  /** Counted so far, plus what is left of the entry at hand, plus the rest of the queue: always the
      recursive count. */
  ghost predicate Conserved(t: seq<MProc>, root: int, N: int, q: seq<int>, depth: seq<int>, count: int, s: nat, i: nat)
    requires s <= |q| == |depth| && i <= |t|
  {
    count + (if s == 0 then 0 else Rooted(t, root, q[s - 1], depth[s - 1], N, i)) + Pending(t, root, N, q, depth, s)
      == Rooted(t, root, root, 1, N, 0)
  }

  lemma ConservedNext(t: seq<MProc>, root: int, N: int, q: seq<int>, depth: seq<int>, count: int, s: nat)
    requires s < |q| == |depth| && Conserved(t, root, N, q, depth, count, s, |t|)
    ensures Conserved(t, root, N, q, depth, count, s + 1, 0)
  {
  }

  lemma ConservedChild(t: seq<MProc>, root: int, N: int, q: seq<int>, depth: seq<int>, count: int, s: nat, i: nat)
    requires 0 < s <= |q| == |depth| && i < |t| && Conserved(t, root, N, q, depth, count, s, i)
    ensures !(IsChild(t, q[s - 1], i) && i != root) ==> Conserved(t, root, N, q, depth, count, s, i + 1)
    ensures IsChild(t, q[s - 1], i) && i != root && depth[s - 1] >= N ==>
              Conserved(t, root, N, q, depth, count + 1, s, i + 1)
    ensures IsChild(t, q[s - 1], i) && i != root && depth[s - 1] < N ==>
              Conserved(t, root, N, q + [i], depth + [depth[s - 1] + 1], count + 1, s, i + 1)
  {
    PendingMore(t, root, N, q, depth, s, i, depth[s - 1] + 1);
  }

  ghost predicate Counting(t: seq<MProc>, root: int, N: int, q: seq<int>, depth: seq<int>, found: seq<int>, s: nat, i: nat) {
    Searched(t, root, N, q, depth, found, s, i) && Conserved(t, root, N, q, depth, |found|, s, i)
  }

  lemma CountingStarts(t: seq<MProc>, root: int, N: int)
    requires 0 <= root < |t|
    ensures Counting(t, root, N, [root], [1], [], 0, |t|)
  {
  }

  lemma CountingNext(t: seq<MProc>, root: int, N: int, q: seq<int>, depth: seq<int>, found: seq<int>, s: nat)
    requires Counting(t, root, N, q, depth, found, s, |t|)
    ensures s <= |q| <= |t| && (s < |q| ==> Counting(t, root, N, q, depth, found, s + 1, 0))
  {
    DistinctBound(q, |t|);
    if s < |q| {
      NextEntry(t, root, N, q, depth, found, s);
      ConservedNext(t, root, N, q, depth, |found|, s);
    }
  }

  lemma CountingEnds(t: seq<MProc>, root: int, N: int, q: seq<int>, depth: seq<int>, found: seq<int>)
    requires Counting(t, root, N, q, depth, found, |q|, |t|)
    ensures Rooted(t, root, root, 1, N, 0) == |Descendants(t, root, N)|
  {
    CountIs(t, root, N, q, depth, found);
  }

  lemma CountingStep(t: seq<MProc>, root: int, N: int, q: seq<int>, depth: seq<int>, found: seq<int>, s: nat, i: nat)
    returns (q': seq<int>, depth': seq<int>, found': seq<int>)
    requires i < |t| && 0 < s && Counting(t, root, N, q, depth, found, s, i)
    ensures Counting(t, root, N, q', depth', found', s, i + 1)
  {
    q', depth', found' := q, depth, found;
    ConservedChild(t, root, N, q, depth, |found|, s, i);
    if !(IsChild(t, q[s - 1], i) && i != root) {
      NotAChild(t, root, N, q, depth, found, s, i);
    } else {
      CountChild(t, root, N, q, depth, found, s, i);
      found' := found + [i];
      if depth[s - 1] < N { q', depth' := q + [i], depth + [depth[s - 1] + 1]; }
    }
    hide Queued, Found, Complete, Conserved;
  }

  /** One entry's children, one after the other. */
  lemma ExpandOne(t: seq<MProc>, root: int, N: int, q: seq<int>, depth: seq<int>, found: seq<int>, s: nat, i: nat)
    returns (q': seq<int>, depth': seq<int>, found': seq<int>)
    requires i <= |t| && 0 < s && Counting(t, root, N, q, depth, found, s, i)
    ensures Counting(t, root, N, q', depth', found', s, |t|)
    decreases |t| - i
  {
    hide *;
    if i == |t| {
      q', depth', found' := q, depth, found;
    } else {
      q', depth', found' := CountingStep(t, root, N, q, depth, found, s, i);
      q', depth', found' := ExpandOne(t, root, N, q', depth', found', s, i + 1);
    }
  }

  lemma ExpandAll(t: seq<MProc>, root: int, N: int, q: seq<int>, depth: seq<int>, found: seq<int>, s: nat)
    requires Counting(t, root, N, q, depth, found, s, |t|)
    ensures Rooted(t, root, root, 1, N, 0) == |Descendants(t, root, N)|
    decreases |t| - s
  {
    hide *;
    CountingNext(t, root, N, q, depth, found, s);
    if s == |q| {
      CountingEnds(t, root, N, q, depth, found);
    } else {
      var q', depth', found' := ExpandOne(t, root, N, q, depth, found, s + 1, 0);
      ExpandAll(t, root, N, q', depth', found', s + 1);
    }
  }

  /** The recursion that leaves out the root counts every descendant once. */
  lemma RootedCounts(t: seq<MProc>, root: int, N: int)
    requires 0 <= root < |t|
    ensures Rooted(t, root, root, 1, N, 0) == |Descendants(t, root, N)|
  {
    CountingStarts(t, root, N);
    ExpandAll(t, root, N, [root], [1], [], 0);
  }

  /** countDescendantsRecursive gives the number of descendants, as the queue does, exactly when the
      root is not, within N generations, a descendant of itself; otherwise it counts too many. */
  lemma RecursionCountsExactly(t: seq<MProc>, root: int, N: int)
    requires 0 <= root < |t|
    ensures Recursive(t, root, 1, N, 0) == |Descendants(t, root, N)| <==> !OnCycle(t, root, N)
    ensures Recursive(t, root, 1, N, 0) >= |Descendants(t, root, N)|
  {
    RecursiveExactly(t, root, N);
    RootedCounts(t, root, N);
  }

  /** Two processes, each the other's parent: the one descendant of the first is counted, and the first
      itself as its child. */
  lemma CountsTheRoot()
    ensures var t := [MProc(true, 1, 5), MProc(true, 0, 6)];
            OnCycle(t, 0, 2) && Recursive(t, 0, 1, 2, 0) == 2 && Descendants(t, 0, 2) == {1}
  {
    var t := [MProc(true, 1, 5), MProc(true, 0, 6)];
    var live := InUse(t);
    assert Down(t, live, 0, 1, 2) by { assert Down(t, live, 0, 0, 1); }
    assert Recursive(t, 1, 2, 2, 2) == 0 && Recursive(t, 1, 2, 2, 1) == 0 && Recursive(t, 1, 2, 2, 0) == 1;
    assert Recursive(t, 0, 1, 2, 2) == 0 && Recursive(t, 0, 1, 2, 1) == 2;
  }
}
