/** The process table of the memory manager as syscalls/ sees it: every slot has one parent, and
    nothing keeps the parents from forming cycles. */
module ProcessTree {
  import opened Chains

  datatype MProc = MProc(in_use: bool, mp_parent: int, mp_pid: int)

  predicate IsChild(t: seq<MProc>, parent: int, i: int)
    requires 0 <= i < |t|
  {
    t[i].in_use && t[i].mp_parent == parent
  }

  ghost predicate Childless(t: seq<MProc>, p: int) {
    forall i :: 0 <= i < |t| ==> !IsChild(t, p, i)
  }

  // ---------------------------------------------------------------- generations

  /** x is in generation d below root, which is itself in generation 1: d - 1 steps from parent to
      parent lead from x to root for the first time, through slots that are `live`. */
  ghost predicate Down(t: seq<MProc>, live: seq<bool>, root: int, x: int, d: nat)
    requires |live| == |t| && 0 <= x < |t|
    decreases d
  {
    if d <= 1 then d == 1 && x == root
    else x != root && live[x] && 0 <= t[x].mp_parent < |t| && Down(t, live, root, t[x].mp_parent, d - 1)
  }

  lemma {:induction false} DownUnique(t: seq<MProc>, live: seq<bool>, root: int, x: int, d: nat, e: nat)
    requires |live| == |t| && 0 <= x < |t| && Down(t, live, root, x, d) && Down(t, live, root, x, e)
    ensures d == e
    decreases d
  {
    if d > 1 { DownUnique(t, live, root, t[x].mp_parent, d - 1, e - 1); }
  }

  lemma NotTwice(t: seq<MProc>, live: seq<bool>, root: int, x: int, d: nat, e: nat)
    requires |live| == |t| && 0 <= x < |t| && Down(t, live, root, x, d) && d != e
    ensures !Down(t, live, root, x, e)
  {
    if Down(t, live, root, x, e) { DownUnique(t, live, root, x, d, e); }
  }

  /** The way from x up to root. */
  ghost function WayUp(t: seq<MProc>, live: seq<bool>, root: int, x: int, d: nat): (w: seq<int>)
    requires |live| == |t| && 0 <= x < |t| && Down(t, live, root, x, d)
    ensures |w| == d
    ensures forall i :: 0 <= i < |w| ==> 0 <= w[i] < |t| && Down(t, live, root, w[i], d - i)
    decreases d
  {
    if d == 1 then [x] else [x] + WayUp(t, live, root, t[x].mp_parent, d - 1)
  }

  /** No generation is further down than the table is long. */
  lemma DownBound(t: seq<MProc>, live: seq<bool>, root: int, x: int, d: nat)
    requires |live| == |t| && 0 <= x < |t| && Down(t, live, root, x, d)
    ensures d <= |t|
  {
    var w := WayUp(t, live, root, x, d);
    forall i, j | 0 <= i < j < |w| ensures w[i] != w[j] { NotTwice(t, live, root, w[i], d - i, d - j); }
    DistinctBound(w, |t|);
  }

  // ---------------------------------------------------------------- counting by recursion

  function InUse(t: seq<MProc>): (live: seq<bool>)
    ensures |live| == |t| && forall i :: 0 <= i < |t| ==> live[i] == t[i].in_use
  {
    seq(|t|, i requires 0 <= i < |t| => t[i].in_use)
  }

  /** countDescendantsRecursive, from child i on: descendants of p down to generation N, if p is in
      generation cur; p is not taken for a child of its own. */
  function Recursive(t: seq<MProc>, p: int, cur: int, N: int, i: nat): (r: nat)
    requires i <= |t|
    decreases if N > cur then N - cur else 0, |t| - i
  {
    if i == |t| then 0
    else
      (if IsChild(t, p, i) && i != p then 1 + (if cur < N then Recursive(t, i, cur + 1, N, 0) else 0) else 0)
      + Recursive(t, p, cur, N, i + 1)
  }

  /** The same, but it is the root that is never taken for a child. */
  function Rooted(t: seq<MProc>, root: int, p: int, cur: int, N: int, i: nat): (r: nat)
    requires i <= |t|
    decreases if N > cur then N - cur else 0, |t| - i
  {
    if i == |t| then 0
    else
      (if IsChild(t, p, i) && i != root then 1 + (if cur < N then Rooted(t, root, i, cur + 1, N, 0) else 0) else 0)
      + Rooted(t, root, p, cur, N, i + 1)
  }

  /** The root is on a cycle of at least two and at most N processes in use. */
  ghost predicate OnCycle(t: seq<MProc>, root: int, N: int)
    requires 0 <= root < |t|
  {
    && t[root].in_use && 0 <= t[root].mp_parent < |t|
    && exists d: nat :: 2 <= d <= N && Down(t, InUse(t), root, t[root].mp_parent, d)
  }

  lemma NoSelfParent(t: seq<MProc>, root: int, p: int, cur: nat)
    requires 0 <= p < |t| && Down(t, InUse(t), root, p, cur) && p != root
    ensures t[p].mp_parent != p && cur >= 2
  {
  }

  lemma ChildIsDown(t: seq<MProc>, root: int, p: int, cur: nat, i: int)
    requires 0 <= p < |t| && 0 <= i < |t| && Down(t, InUse(t), root, p, cur) && IsChild(t, p, i) && i != root
    ensures Down(t, InUse(t), root, i, cur + 1)
  {
  }

  /** Without such a cycle the two recursions agree, at every process they reach. */
  lemma {:induction false} SameWithoutCycle(t: seq<MProc>, root: int, p: int, cur: nat, N: int, i: nat)
    requires 0 <= root < |t| && 0 <= p < |t| && i <= |t|
    requires Down(t, InUse(t), root, p, cur) && (cur <= N || cur == 1) && !OnCycle(t, root, N)
    ensures Recursive(t, p, cur, N, i) == Rooted(t, root, p, cur, N, i)
    decreases if N > cur then N - cur else 0, |t| - i
  {
    if i < |t| {
      SameWithoutCycle(t, root, p, cur, N, i + 1);
      if p != root { NoSelfParent(t, root, p, cur); }
      if IsChild(t, p, i) && i != root && cur < N {
        ChildIsDown(t, root, p, cur, i);
        SameWithoutCycle(t, root, i, cur + 1, N, 0);
      }
    }
  }

  /** The plain recursion never counts less. */
  lemma {:induction false} NeverLess(t: seq<MProc>, root: int, p: int, cur: nat, N: int, i: nat)
    requires 0 <= root < |t| && 0 <= p < |t| && i <= |t| && Down(t, InUse(t), root, p, cur)
    ensures Recursive(t, p, cur, N, i) >= Rooted(t, root, p, cur, N, i)
    decreases if N > cur then N - cur else 0, |t| - i
  {
    if i < |t| {
      NeverLess(t, root, p, cur, N, i + 1);
      if p != root { NoSelfParent(t, root, p, cur); }
      if IsChild(t, p, i) && i != root && cur < N {
        ChildIsDown(t, root, p, cur, i);
        NeverLess(t, root, i, cur + 1, N, 0);
      }
    }
  }

  ghost predicate CountsMore(t: seq<MProc>, root: int, p: int, cur: int, N: int, i: nat)
    requires i <= |t|
  {
    Recursive(t, p, cur, N, i) > Rooted(t, root, p, cur, N, i)
  }

  /** One child that makes the plain recursion count more is enough. */
  lemma {:induction false} MoreThrough(t: seq<MProc>, root: int, p: int, cur: nat, N: int, i: nat, c: nat)
    requires 0 <= root < |t| && 0 <= p < |t| && i <= c < |t| && Down(t, InUse(t), root, p, cur)
    requires IsChild(t, p, c) && p != c && (c == root || (cur < N && CountsMore(t, root, c, cur + 1, N, 0)))
    ensures CountsMore(t, root, p, cur, N, i)
    decreases |t| - i
  {
    NeverLess(t, root, p, cur, N, i + 1);
    if i < c {
      MoreThrough(t, root, p, cur, N, i + 1, c);
      if p != root { NoSelfParent(t, root, p, cur); }
      if IsChild(t, p, i) && i != root && cur < N {
        ChildIsDown(t, root, p, cur, i);
        NeverLess(t, root, i, cur + 1, N, 0);
      }
    }
  }

  /** From the root's parent up to the root itself. */
  lemma {:induction false} MoreAllTheWayUp(t: seq<MProc>, root: int, x: int, d: nat, N: int)
    requires 0 <= root < |t| && 0 <= x < |t| && d <= N && Down(t, InUse(t), root, x, d)
    requires CountsMore(t, root, x, d, N, 0)
    ensures CountsMore(t, root, root, 1, N, 0)
    decreases d
  {
    if d > 1 {
      var p := t[x].mp_parent;
      NoSelfParent(t, root, x, d);
      MoreThrough(t, root, p, d - 1, N, 0, x);
      MoreAllTheWayUp(t, root, p, d - 1, N);
    }
  }

  /** The recursive count is the count of the root's own descendants exactly when the root is not,
      within N generations, a descendant of itself. */
  lemma RecursiveExactly(t: seq<MProc>, root: int, N: int)
    requires 0 <= root < |t|
    ensures Recursive(t, root, 1, N, 0) == Rooted(t, root, root, 1, N, 0) <==> !OnCycle(t, root, N)
    ensures Recursive(t, root, 1, N, 0) >= Rooted(t, root, root, 1, N, 0)
  {
    NeverLess(t, root, root, 1, N, 0);
    if OnCycle(t, root, N) {
      var q := t[root].mp_parent;
      var d: nat :| 2 <= d <= N && Down(t, InUse(t), root, q, d);
      MoreThrough(t, root, q, d, N, 0, root);
      MoreAllTheWayUp(t, root, q, d, N);
    } else {
      SameWithoutCycle(t, root, root, 1, N, 0);
    }
  }
}
