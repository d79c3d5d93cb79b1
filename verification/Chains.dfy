/** Intrusive singly linked lists: nodes are table indices, `next` holds every node's link. */
module Chains {

  const NIL := -1

  ghost function First(l: seq<int>, end: int): int {
    if l == [] then end else l[0]
  }

  ghost function After(l: seq<int>, i: int, end: int): int {
    if 0 <= i + 1 < |l| then l[i + 1] else end
  }

  /** The links lead through l, in order, and out of it to `end`. */
  ghost predicate Segment(next: seq<int>, l: seq<int>, end: int) {
    forall i :: 0 <= i < |l| ==> 0 <= l[i] < |next| && next[l[i]] == After(l, i, end)
  }

  /** l is the list that starts at head. */
  ghost predicate Chain(next: seq<int>, head: int, l: seq<int>) {
    head == First(l, NIL) && Segment(next, l, NIL)
  }

  ghost predicate Distinct(l: seq<int>) {
    forall i, j :: 0 <= i < j < |l| ==> l[i] != l[j]
  }

  function Without(l: seq<int>, k: nat): (r: seq<int>)
    requires k < |l|
  {
    l[..k] + l[k + 1..]
  }

  lemma SegmentConcat(next: seq<int>, a: seq<int>, b: seq<int>, end: int)
    ensures Segment(next, a + b, end) <==> Segment(next, a, First(b, end)) && Segment(next, b, end)
  {
    var l := a + b;
    assert forall i :: 0 <= i < |a| ==> l[i] == a[i] && After(l, i, end) == After(a, i, First(b, end));
    assert forall i :: 0 <= i < |b| ==> l[|a| + i] == b[i] && After(l, |a| + i, end) == After(b, i, end);
    if Segment(next, a, First(b, end)) && Segment(next, b, end) {
      forall i | 0 <= i < |l|
        ensures 0 <= l[i] < |next| && next[l[i]] == After(l, i, end)
      {
        if i >= |a| { assert l[i] == b[i - |a|]; }
      }
    }
  }

  lemma SegmentFrame(next: seq<int>, next': seq<int>, l: seq<int>, end: int)
    requires Segment(next, l, end) && |next'| == |next|
    requires forall i :: 0 <= i < |l| ==> next'[l[i]] == next[l[i]]
    ensures Segment(next', l, end)
  {
  }

  lemma SegmentUpdate(next: seq<int>, l: seq<int>, end: int, p: int, v: int)
    requires Segment(next, l, end) && 0 <= p < |next| && forall i :: 0 <= i < |l| ==> l[i] != p
    ensures Segment(next[p := v], l, end)
  {
  }

  /** A node's link leads to the rest of its list. */
  lemma SegmentSplit(next: seq<int>, l: seq<int>, k: nat, end: int)
    requires Segment(next, l, end) && k < |l|
    ensures Segment(next, l[..k], l[k]) && Segment(next, l[k + 1..], end)
    ensures 0 <= l[k] < |next| && next[l[k]] == First(l[k + 1..], end)
  {
  }

  lemma SegmentOne(next: seq<int>, s: int, end: int)
    requires 0 <= s < |next| && next[s] == end
    ensures Segment(next, [s], end)
  {
  }

  /** Taking node k out: its predecessor inherits its link. */
  lemma ChainRemove(next: seq<int>, head: int, l: seq<int>, k: nat)
    requires Chain(next, head, l) && Distinct(l) && k < |l|
    ensures 0 <= l[k] < |next|
    ensures k == 0 ==> l[k] == head && Chain(next, next[l[k]], Without(l, k))
    ensures k > 0 ==> l[k] != head && 0 <= l[k - 1] < |next|
                      && Chain(next[l[k - 1] := next[l[k]]], head, Without(l, k))
  {
  }

  lemma ChainPush(next: seq<int>, head: int, l: seq<int>, s: int)
    requires Chain(next, head, l) && 0 <= s < |next| && s !in l
    ensures Chain(next[s := head], s, [s] + l)
  {
  }

  lemma SegmentInsert(next: seq<int>, pre: seq<int>, p: int, post: seq<int>, s: int)
    requires Segment(next, pre, p) && Segment(next, post, NIL)
    requires 0 <= p < |next| && 0 <= s < |next| && next[p] == First(post, NIL)
    requires p !in pre && p !in post && s !in pre && s !in post && s != p
    ensures Segment(next[s := next[p]][p := s], (pre + [p]) + ([s] + post), NIL)
  {
  }

  /** Linking s in after node k. */
  lemma ChainInsert(next: seq<int>, head: int, l: seq<int>, k: nat, s: int)
    requires Chain(next, head, l) && Distinct(l) && k < |l| && 0 <= s < |next| && s !in l
    ensures 0 <= l[k] < |next|
    ensures Chain(next[s := next[l[k]]][l[k] := s], head, l[..k + 1] + [s] + l[k + 1..])
  {
    SegmentSplit(next, l, k, NIL);
    var pre, p, post := l[..k], l[k], l[k + 1..];
    hide Segment;
    SegmentInsert(next, pre, p, post, s);
    assert l[..k + 1] + [s] + post == (pre + [p]) + ([s] + post);
  }

  lemma ChainAppend(next: seq<int>, head: int, l: seq<int>, s: int)
    requires Chain(next, head, l) && Distinct(l) && l != [] && 0 <= s < |next| && s !in l
    ensures 0 <= l[|l| - 1] < |next|
    ensures Chain(next[s := NIL][l[|l| - 1] := s], head, l + [s])
  {
  }

  /** No node is in two of the lists. */
  ghost predicate Separate(lists: seq<seq<int>>) {
    forall a, b, x :: 0 <= a < |lists| && 0 <= b < |lists| && x in lists[a] && x in lists[b] ==> a == b
  }

  ghost predicate Nowhere(lists: seq<seq<int>>, p: int) {
    forall a :: 0 <= a < |lists| ==> p !in lists[a]
  }

  ghost function Below(n: nat): (s: set<int>)
    ensures |s| == n && forall x :: x in s <==> 0 <= x < n
  {
    if n == 0 then {} else Below(n - 1) + {n - 1}
  }

  ghost function Elements(l: seq<int>): set<int> {
    set i | 0 <= i < |l| :: l[i]
  }

  /** A list of distinct table indices is no longer than the table. */
  lemma DistinctBound(l: seq<int>, n: nat)
    requires Distinct(l) && forall i :: 0 <= i < |l| ==> 0 <= l[i] < n
    ensures |l| <= n
  {
    DistinctSize(l);
    SubsetSize(Elements(l), Below(n));
  }

  lemma {:induction false} DistinctSize(l: seq<int>)
    requires Distinct(l)
    ensures |Elements(l)| == |l|
  {
    if l != [] {
      var m := |l| - 1;
      DistinctSize(l[..m]);
      assert Elements(l) == Elements(l[..m]) + {l[m]};
    }
  }

  lemma {:induction false} SubsetSize<T>(a: set<T>, b: set<T>)
    requires a <= b
    ensures |a| <= |b|
  {
    if a != {} {
      var x :| x in a;
      SubsetSize(a - {x}, b - {x});
    }
  }
}
