/** determinePathToChildless of syscalls/minix/src/mm/misc.c (and its twin in syscalls/dummy): a
    depth-first search on a stack no bigger than the process table, for any parent array. */
module TreePaths {
  import opened Chains
  import opened ProcessTree

  // ---------------------------------------------------------------- what is to be found

  /** The processes a path may pass: in use, and not the one excluded. */
  function Passable(t: seq<MProc>, excluded: int): (live: seq<bool>)
    ensures |live| == |t| && forall i :: 0 <= i < |t| ==> live[i] == (t[i].in_use && t[i].mp_pid != excluded)
  {
    seq(|t|, i requires 0 <= i < |t| => t[i].in_use && t[i].mp_pid != excluded)
  }

  /** A path from start leads down to x, d processes long. */
  ghost predicate PathTo(t: seq<MProc>, live: seq<bool>, start: int, x: int, d: nat)
    requires |live| == |t| && 0 <= start < |t|
  {
    live[start] && 0 <= x < |t| && Down(t, live, start, x, d)
  }

  /** r is the length of the longest path from start to a process without children, or -1. */
  ghost predicate IsLongest(t: seq<MProc>, live: seq<bool>, start: int, r: int)
    requires |live| == |t| && 0 <= start < |t|
  {
    && (forall x, d: nat :: PathTo(t, live, start, x, d) && Childless(t, x) ==> d <= r)
    && (r != -1 ==> r > 0 && exists x :: PathTo(t, live, start, x, r) && Childless(t, x))
  }

  lemma LongestUnique(t: seq<MProc>, live: seq<bool>, start: int, r: int, s: int)
    requires |live| == |t| && 0 <= start < |t| && IsLongest(t, live, start, r) && IsLongest(t, live, start, s)
    ensures r == s
  {
  }

  // ---------------------------------------------------------------- the stack, on values

  /** Child x of v has been pushed: of process c only the children below i. */
  predicate Pushed(c: int, i: int, v: int, x: int) {
    v != c || x < i
  }

  /** Each process visited, once, with its generation. */
  ghost predicate Visited(t: seq<MProc>, live: seq<bool>, start: int, visited: seq<bool>, order: seq<int>, gen: seq<nat>)
    requires |live| == |t|
  {
    && |visited| == |gen| == |t| && Distinct(order) && 0 <= start < |t|
    && (forall v :: v in order ==> 0 <= v < |t| && live[v] && live[start] && Down(t, live, start, v, gen[v]))
    && (forall v :: 0 <= v < |t| ==> (visited[v] <==> v in order))
  }

  /** What stands on the stack: children of processes visited, each once; no bigger than the table. */
  ghost predicate Stacked(t: seq<MProc>, live: seq<bool>, stack: seq<int>, depth: seq<int>, order: seq<int>, gen: seq<nat>, c: int, i: int)
    requires |live| == |gen| == |t|
  {
    && |stack| == |depth| && Distinct(stack)
    && forall j :: 0 <= j < |stack| ==>
         && 0 <= stack[j] < |t| && live[stack[j]] && t[stack[j]].mp_parent in order && 0 <= t[stack[j]].mp_parent < |t|
         && depth[j] == gen[t[stack[j]].mp_parent] + 1 && Pushed(c, i, t[stack[j]].mp_parent, stack[j])
  }

  /** No child is forgotten. */
  ghost predicate Closed(t: seq<MProc>, live: seq<bool>, stack: seq<int>, order: seq<int>, c: int, i: int)
    requires |live| == |t|
  {
    forall v, x :: v in order && 0 <= x < |t| && IsChild(t, v, x) && live[x] && Pushed(c, i, v, x) ==> x in order || x in stack
  }

  ghost predicate Best(t: seq<MProc>, order: seq<int>, gen: seq<nat>, best: int)
    requires forall v :: v in order ==> 0 <= v < |gen|
  {
    && (forall v :: v in order && Childless(t, v) ==> gen[v] <= best)
    && (best == -1 || (best > 0 && exists v :: v in order && Childless(t, v) && gen[v] == best))
  }

  /** The search after its first step. */
  ghost predicate Walked(t: seq<MProc>, live: seq<bool>, start: int, stack: seq<int>, depth: seq<int>, visited: seq<bool>,
                         order: seq<int>, gen: seq<nat>, best: int, c: int, i: int)
  {
    && |live| == |t| && Visited(t, live, start, visited, order, gen) && (live[start] ==> start in order)
    && Stacked(t, live, stack, depth, order, gen, c, i) && Closed(t, live, stack, order, c, i)
    && Best(t, order, gen, best)
  }

  /** Before its first step: start alone is on the stack. */
  ghost predicate Begins(t: seq<MProc>, live: seq<bool>, start: int, stack: seq<int>, depth: seq<int>, visited: seq<bool>,
                         order: seq<int>, gen: seq<nat>, best: int)
  {
    && |live| == |t| && Visited(t, live, start, visited, order, gen) && order == []
    && stack == [start] && depth == [1] && best == -1
  }

  ghost predicate Searching(t: seq<MProc>, live: seq<bool>, start: int, stack: seq<int>, depth: seq<int>, visited: seq<bool>,
                            order: seq<int>, gen: seq<nat>, best: int)
  {
    || Begins(t, live, start, stack, depth, visited, order, gen, best)
    || Walked(t, live, start, stack, depth, visited, order, gen, best, -1, 0)
  }

  lemma Fits(t: seq<MProc>, live: seq<bool>, start: int, stack: seq<int>, depth: seq<int>, visited: seq<bool>,
             order: seq<int>, gen: seq<nat>, best: int)
    requires Searching(t, live, start, stack, depth, visited, order, gen, best)
    ensures |stack| == |depth| <= |t| == |visited| && |order| <= |t|
    ensures forall j :: 0 <= j < |stack| ==> 0 <= stack[j] < |t|
  {
    DistinctBound(stack, |t|);
    forall j | 0 <= j < |order| ensures 0 <= order[j] < |t| { assert order[j] in order; }
    DistinctBound(order, |t|);
  }

  lemma SearchBegins(t: seq<MProc>, live: seq<bool>, start: int, visited: seq<bool>, gen: seq<nat>)
    requires |live| == |visited| == |gen| == |t| && 0 <= start < |t| && forall i :: 0 <= i < |t| ==> !visited[i]
    ensures Searching(t, live, start, [start], [1], visited, [], gen, -1)
  {
  }

  lemma NotAtStart(t: seq<MProc>, live: seq<bool>, start: int, visited: seq<bool>, order: seq<int>, gen: seq<nat>, best: int)
    requires Searching(t, live, start, [], [], visited, order, gen, best)
    ensures Walked(t, live, start, [], [], visited, order, gen, best, -1, 0)
  {
  }

  lemma Goes(t: seq<MProc>, live: seq<bool>, start: int, stack: seq<int>, depth: seq<int>, visited: seq<bool>,
             order: seq<int>, gen: seq<nat>, best: int)
    requires |live| == |gen| == |t| && Visited(t, live, start, visited, order, gen) && start in order
    requires Stacked(t, live, stack, depth, order, gen, -1, 0) && Closed(t, live, stack, order, -1, 0)
    requires (forall v :: v in order ==> 0 <= v < |gen|) && Best(t, order, gen, best)
    ensures Searching(t, live, start, stack, depth, visited, order, gen, best)
  {
  }

  // ---------------------------------------------------------------- popping

  /** A process popped that may not be passed, or was visited before. */
  lemma PopSkips(t: seq<MProc>, live: seq<bool>, start: int, stack: seq<int>, depth: seq<int>, visited: seq<bool>,
                 order: seq<int>, gen: seq<nat>, best: int)
    requires Searching(t, live, start, stack, depth, visited, order, gen, best) && stack != []
    requires var top := |stack| - 1; 0 <= stack[top] < |t| && |live| == |visited| == |t| && (!live[stack[top]] || visited[stack[top]])
    ensures |depth| == |stack|
    ensures Searching(t, live, start, stack[..|stack| - 1], depth[..|stack| - 1], visited, order, gen, best)
  {
    assert Walked(t, live, start, stack[..|stack| - 1], depth[..|stack| - 1], visited, order, gen, best, -1, 0);
  }

  /** It is visited; none of its children is pushed yet. */
  lemma PopVisits(t: seq<MProc>, live: seq<bool>, start: int, stack: seq<int>, depth: seq<int>, visited: seq<bool>,
                  order: seq<int>, gen: seq<nat>, best: int)
    requires Searching(t, live, start, stack, depth, visited, order, gen, best) && stack != []
    requires var top := |stack| - 1; 0 <= stack[top] < |t| && |live| == |visited| == |t| && live[stack[top]] && !visited[stack[top]]
    ensures |depth| == |stack| && |gen| == |t| && depth[|stack| - 1] >= 1 && stack[|stack| - 1] !in order
    ensures var top, c := |stack| - 1, stack[|stack| - 1];
            var d: nat := depth[top];
            var order', gen' := order + [c], gen[c := d];
            && Visited(t, live, start, visited[c := true], order', gen') && start in order'
            && Stacked(t, live, stack[..top], depth[..top], order', gen', c, 0)
            && Closed(t, live, stack[..top], order', c, 0)
            && (forall v :: v in order ==> 0 <= v < |t| && gen'[v] == gen[v])
            && Best(t, order, gen, best)
  {
  }

  // ---------------------------------------------------------------- keeping the best

  lemma BestMore(t: seq<MProc>, order: seq<int>, gen: seq<nat>, best: int, c: int, d: nat)
    requires (forall v :: v in order ==> 0 <= v < |gen|) && 0 <= c < |gen| && c !in order && d >= 1
    requires Best(t, order, gen, best)
    ensures forall v :: v in order + [c] ==> 0 <= v < |gen|
    ensures Best(t, order + [c], gen[c := d], if Childless(t, c) && d > best then d else best)
  {
  }

  // ---------------------------------------------------------------- pushing

  /** A child being pushed is not on the stack, so the stack is not full. */
  lemma PushFits(t: seq<MProc>, live: seq<bool>, stack: seq<int>, depth: seq<int>, order: seq<int>, gen: seq<nat>, c: int, i: int)
    requires |live| == |gen| == |t| && Stacked(t, live, stack, depth, order, gen, c, i)
    requires 0 <= i < |t| && IsChild(t, c, i)
    ensures i !in stack && |stack| < |t|
  {
    forall j | 0 <= j < |stack| ensures stack[j] != i {
      assert Pushed(c, i, t[stack[j]].mp_parent, stack[j]);
    }
    DistinctBound(stack + [i], |t|);
  }

  lemma PushChild(t: seq<MProc>, live: seq<bool>, stack: seq<int>, depth: seq<int>, order: seq<int>, gen: seq<nat>, c: int, i: int)
    requires |live| == |gen| == |t| && Stacked(t, live, stack, depth, order, gen, c, i) && Closed(t, live, stack, order, c, i)
    requires 0 <= i < |t| && c in order && 0 <= c < |t|
    ensures !(IsChild(t, c, i) && live[i]) ==>
              Stacked(t, live, stack, depth, order, gen, c, i + 1) && Closed(t, live, stack, order, c, i + 1)
    ensures IsChild(t, c, i) && live[i] ==>
              && Stacked(t, live, stack + [i], depth + [gen[c] + 1], order, gen, c, i + 1)
              && Closed(t, live, stack + [i], order, c, i + 1)
  {
  }

  lemma AllPushed(t: seq<MProc>, live: seq<bool>, stack: seq<int>, depth: seq<int>, order: seq<int>, gen: seq<nat>, c: int)
    requires |live| == |gen| == |t| && Stacked(t, live, stack, depth, order, gen, c, |t|) && Closed(t, live, stack, order, c, |t|)
    requires forall v :: v in order ==> 0 <= v
    ensures Stacked(t, live, stack, depth, order, gen, -1, 0) && Closed(t, live, stack, order, -1, 0)
  {
  }

  /** A process without children has none to push. */
  lemma NothingToPush(t: seq<MProc>, live: seq<bool>, stack: seq<int>, depth: seq<int>, order: seq<int>, gen: seq<nat>, c: int)
    requires |live| == |gen| == |t| && Stacked(t, live, stack, depth, order, gen, c, 0) && Closed(t, live, stack, order, c, 0)
    requires Childless(t, c) && forall v :: v in order ==> 0 <= v
    ensures Stacked(t, live, stack, depth, order, gen, -1, 0) && Closed(t, live, stack, order, -1, 0)
  {
  }

  // ---------------------------------------------------------------- at the end

  lemma {:induction false} AllVisited(t: seq<MProc>, live: seq<bool>, start: int, visited: seq<bool>, order: seq<int>, gen: seq<nat>,
                                      best: int, x: int, d: nat)
    requires Walked(t, live, start, [], [], visited, order, gen, best, -1, 0) && PathTo(t, live, start, x, d)
    requires forall i :: 0 <= i < |t| && live[i] ==> t[i].in_use
    ensures x in order && gen[x] == d
    decreases d
  {
    if d > 1 {
      var p := t[x].mp_parent;
      AllVisited(t, live, start, visited, order, gen, best, p, d - 1);
      assert IsChild(t, p, x) && Pushed(-1, 0, p, x);
    }
    DownUnique(t, live, start, x, d, gen[x]);
  }

  lemma SearchEnds(t: seq<MProc>, live: seq<bool>, start: int, visited: seq<bool>, order: seq<int>, gen: seq<nat>, best: int)
    requires Walked(t, live, start, [], [], visited, order, gen, best, -1, 0)
    requires forall i :: 0 <= i < |t| && live[i] ==> t[i].in_use
    ensures IsLongest(t, live, start, best)
  {
    forall x, d: nat | PathTo(t, live, start, x, d) && Childless(t, x) ensures d <= best {
      AllVisited(t, live, start, visited, order, gen, best, x, d);
    }
    if best != -1 {
      var v :| v in order && Childless(t, v) && gen[v] == best;
      assert PathTo(t, live, start, v, best);
    }
  }
}
