/** The hole list as a value: a sequence of blocks in address order, and what alloc_mem and
    free_mem do to it. The table and its pointers are in HoleTable. */
module HoleList {

  datatype Block = Block(base: nat, len: nat) {
    function End(): nat { base + len }
  }

  ghost predicate In(b: Block, x: int) {
    b.base <= x < b.base + b.len
  }

  ghost predicate Covers(hs: seq<Block>, x: int) {
    exists i :: 0 <= i < |hs| && In(hs[i], x)
  }

  /** Sorted, non-empty holes, no two of which overlap or even touch. */
  ghost predicate Canonical(hs: seq<Block>) {
    && (forall i :: 0 <= i < |hs| ==> hs[i].len > 0)
    && (forall i, j :: 0 <= i < j < |hs| ==> hs[i].End() < hs[j].base)
  }

  ghost predicate Apart(hs: seq<Block>, b: Block) {
    forall x :: In(b, x) ==> !Covers(hs, x)
  }

  // ---------------------------------------------------------------- allocation

  /** A hole the allocator may bite: big enough, and not in the swap area. */
  predicate Usable(h: Block, clicks: nat, swapBase: nat) {
    h.base < swapBase && h.len >= clicks
  }

  predicate NoneUsable(hs: seq<Block>, clicks: nat, swapBase: nat) {
    forall i :: 0 <= i < |hs| ==> !Usable(hs[i], clicks, swapBase)
  }

  predicate IsFirstFit(hs: seq<Block>, clicks: nat, swapBase: nat, k: int) {
    && 0 <= k < |hs| && Usable(hs[k], clicks, swapBase)
    && forall i :: 0 <= i < k ==> !Usable(hs[i], clicks, swapBase)
  }

  predicate IsWorstUpTo(hs: seq<Block>, n: nat, clicks: nat, swapBase: nat, k: int) {
    && 0 <= k < n <= |hs| && Usable(hs[k], clicks, swapBase)
    && (forall i :: 0 <= i < n && Usable(hs[i], clicks, swapBase) ==> hs[i].len <= hs[k].len)
    && (forall i :: 0 <= i < k && Usable(hs[i], clicks, swapBase) ==> hs[i].len < hs[k].len)
  }

  /** The biggest usable hole; the lowest one when several are equally big. */
  predicate IsWorstFit(hs: seq<Block>, clicks: nat, swapBase: nat, k: int) {
    IsWorstUpTo(hs, |hs|, clicks, swapBase, k)
  }

  predicate Chosen(worstFit: bool, hs: seq<Block>, clicks: nat, swapBase: nat, k: int) {
    if worstFit then IsWorstFit(hs, clicks, swapBase, k) else IsFirstFit(hs, clicks, swapBase, k)
  }

  predicate InSwap(h: Block, size: nat, swapBase: nat) {
    h.base >= swapBase && h.len >= size
  }

  predicate IsSwapHole(hs: seq<Block>, size: nat, swapBase: nat, k: int) {
    && 0 <= k < |hs| && InSwap(hs[k], size, swapBase)
    && forall i :: 0 <= i < k ==> !InSwap(hs[i], size, swapBase)
  }

  predicate SwapRoom(hs: seq<Block>, size: nat, swapBase: nat) {
    exists i :: 0 <= i < |hs| && InSwap(hs[i], size, swapBase)
  }

  /** Bite `clicks` off the low end of hole k, and drop the hole when it is used up. */
  function Take(hs: seq<Block>, k: nat, clicks: nat): seq<Block>
    requires k < |hs| && clicks <= hs[k].len
  {
    if hs[k].len == clicks then hs[..k] + hs[k + 1..]
    else hs[k := Block(hs[k].base + clicks, hs[k].len - clicks)]
  }

  /** The scan for a hole may stop at swap_base: in a sorted list nothing usable lies beyond. */
  lemma BeyondSwapBase(hs: seq<Block>, k: nat, clicks: nat, swapBase: nat)
    requires Canonical(hs) && k <= |hs| && (k < |hs| ==> hs[k].base >= swapBase)
    ensures forall i :: k <= i < |hs| ==> !Usable(hs[i], clicks, swapBase)
  {
  }

  /** One step of the scan for the biggest hole. */
  lemma WorstExtend(hs: seq<Block>, k: nat, clicks: nat, swapBase: nat, found: bool, b: int)
    requires k < |hs| && hs[k].base < swapBase
    requires if found then IsWorstUpTo(hs, k, clicks, swapBase, b)
             else forall i :: 0 <= i < k ==> !Usable(hs[i], clicks, swapBase)
    ensures hs[k].len >= clicks && (!found || hs[k].len > hs[b].len) ==> IsWorstUpTo(hs, k + 1, clicks, swapBase, k)
    ensures !found && hs[k].len < clicks ==> forall i :: 0 <= i < k + 1 ==> !Usable(hs[i], clicks, swapBase)
    ensures found && hs[k].len <= hs[b].len ==> IsWorstUpTo(hs, k + 1, clicks, swapBase, b)
    ensures found && hs[k].len < clicks ==> IsWorstUpTo(hs, k + 1, clicks, swapBase, b)
  {
  }

  // ---------------------------------------------------------------- freeing

  /** Where free_mem links a block in: after every hole with a smaller base. */
  function Position(hs: seq<Block>, base: nat): (k: nat)
    ensures k <= |hs|
    ensures forall i :: 0 <= i < k ==> hs[i].base < base
    ensures k < |hs| ==> base <= hs[k].base
  {
    if hs == [] || base <= hs[0].base then 0 else 1 + Position(hs[1..], base)
  }

  predicate Touches(hs: seq<Block>, p: nat)
    requires p < |hs|
  {
    p + 1 < |hs| && hs[p].End() == hs[p + 1].base
  }

  /** One half of merge: absorb the successor of hole p when they touch. */
  function Absorb(hs: seq<Block>, p: nat): seq<Block>
    requires p < |hs|
  {
    if Touches(hs, p)
    then hs[..p] + [Block(hs[p].base, hs[p].len + hs[p + 1].len)] + hs[p + 2..]
    else hs
  }

  /** merge: try to absorb the successor; then once more from whichever hole is now current. */
  function Merge(hs: seq<Block>, p: nat): seq<Block>
    requires p < |hs|
  {
    if p + 1 == |hs| then hs
    else if Touches(hs, p) then Absorb(Absorb(hs, p), p)
    else Absorb(hs, p + 1)
  }

  /** Link b in as hole k, then merge from its predecessor (from b itself at the front). */
  function FreeAt(hs: seq<Block>, b: Block, k: nat): seq<Block>
    requires k <= |hs|
  {
    Merge(hs[..k] + [b] + hs[k..], if k == 0 then 0 else k - 1)
  }

  function Free(hs: seq<Block>, b: Block): seq<Block> {
    if b.len == 0 then hs else FreeAt(hs, b, Position(hs, b.base))
  }

  lemma FreeIs(hs: seq<Block>, b: Block, k: nat)
    requires b.len > 0 && k <= |hs| && forall i :: 0 <= i < k ==> hs[i].base < b.base
    requires k < |hs| ==> b.base <= hs[k].base
    ensures Free(hs, b) == Merge(hs[..k] + [b] + hs[k..], if k == 0 then 0 else k - 1)
  {
  }

  // ---------------------------------------------------------------- what they keep

  lemma CoversConcat(a: seq<Block>, b: seq<Block>, x: int)
    ensures Covers(a + b, x) <==> Covers(a, x) || Covers(b, x)
  {
    if Covers(a, x) {
      var i :| 0 <= i < |a| && In(a[i], x);
      assert In((a + b)[i], x);
    }
    if Covers(b, x) {
      var i :| 0 <= i < |b| && In(b[i], x);
      assert In((a + b)[|a| + i], x);
    }
  }

  /** Covers, one middle block at a time. */
  lemma CoversAround(pre: seq<Block>, mid: seq<Block>, post: seq<Block>, x: int)
    ensures Covers(pre + mid + post, x) <==> Covers(pre, x) || Covers(mid, x) || Covers(post, x)
  {
    CoversConcat(pre + mid, post, x);
    CoversConcat(pre, mid, x);
  }

  lemma CoversOne(b: Block, x: int)
    ensures Covers([b], x) <==> In(b, x)
  {
    if In(b, x) { assert In([b][0], x); }
  }

  lemma TakeCanonical(hs: seq<Block>, k: nat, clicks: nat)
    requires Canonical(hs) && k < |hs| && clicks <= hs[k].len
    ensures Canonical(Take(hs, k, clicks))
  {
  }

  lemma TakeCovers(hs: seq<Block>, k: nat, clicks: nat, x: int)
    requires Canonical(hs) && k < |hs| && clicks <= hs[k].len
    ensures Covers(Take(hs, k, clicks), x) <==> Covers(hs, x) && !In(Block(hs[k].base, clicks), x)
    ensures In(Block(hs[k].base, clicks), x) ==> Covers(hs, x)
  {
    var pre, post := hs[..k], hs[k + 1..];
    var rest := if hs[k].len == clicks then [] else [Block(hs[k].base + clicks, hs[k].len - clicks)];
    assert hs == pre + [hs[k]] + post;
    assert Take(hs, k, clicks) == pre + rest + post;
    CoversAround(pre, [hs[k]], post, x);
    CoversAround(pre, rest, post, x);
    CoversOne(hs[k], x);
    if rest != [] { CoversOne(rest[0], x); }
    if In(hs[k], x) { OthersMiss(hs, k, x); }
  }

  /** At most one hole covers a click. */
  lemma OthersMiss(hs: seq<Block>, k: nat, x: int)
    requires Canonical(hs) && k < |hs| && In(hs[k], x)
    ensures !Covers(hs[..k], x) && !Covers(hs[k + 1..], x)
  {
  }

  /** Hole k is where b fits: all of b lies between hole k - 1 and hole k. */
  ghost predicate Between(hs: seq<Block>, b: Block, k: nat) {
    && k <= |hs|
    && (forall i :: 0 <= i < k ==> hs[i].End() <= b.base)
    && (forall i :: k <= i < |hs| ==> b.End() <= hs[i].base)
  }

  lemma ApartBetween(hs: seq<Block>, b: Block)
    requires Canonical(hs) && b.len > 0 && Apart(hs, b)
    ensures Between(hs, b, Position(hs, b.base))
  {
    var k := Position(hs, b.base);
    forall i | 0 <= i < k
      ensures hs[i].End() <= b.base
    {
      if hs[i].End() > b.base { assert In(hs[i], b.base) && In(b, b.base); }
    }
    forall i | k <= i < |hs|
      ensures b.End() <= hs[i].base
    {
      if k < i { assert hs[k].End() < hs[i].base; }
      if b.End() > hs[i].base { assert In(hs[i], hs[i].base) && In(b, hs[i].base); }
    }
  }

  lemma AbsorbTouching(pre: seq<Block>, a: Block, b: Block, post: seq<Block>)
    requires a.End() == b.base
    ensures Absorb(pre + [a, b] + post, |pre|) == pre + [Block(a.base, a.len + b.len)] + post
  {
  }

  lemma AbsorbGap(pre: seq<Block>, a: Block, post: seq<Block>)
    requires post == [] || a.End() != post[0].base
    ensures Absorb(pre + [a] + post, |pre|) == pre + [a] + post
  {
  }

  /** Absorbing the right-hand neighbour, or finding that there is none to absorb. */
  lemma AbsorbRight(pre: seq<Block>, b: Block, post: seq<Block>) returns (mid: seq<Block>, j: Block, rest: seq<Block>)
    ensures post == mid + rest && |mid| <= 1
    ensures Absorb(pre + [b] + post, |pre|) == pre + [j] + rest
    ensures j.base == b.base
    ensures mid == [] ==> j == b && (post == [] || b.End() != post[0].base)
    ensures mid != [] ==> b.End() == mid[0].base && j.len == b.len + mid[0].len
  {
    if post != [] && b.End() == post[0].base {
      mid, j, rest := [post[0]], Block(b.base, b.len + post[0].len), post[1..];
      assert pre + [b] + post == pre + [b, post[0]] + rest;
      AbsorbTouching(pre, b, post[0], rest);
    } else {
      mid, j, rest := [], b, post;
      AbsorbGap(pre, b, post);
    }
  }

  lemma FrontTouching(b: Block, c: Block, post: seq<Block>)
    requires b.End() == c.base && (post == [] || c.End() != post[0].base)
    ensures FreeAt([c] + post, b, 0) == [Block(b.base, b.len + c.len)] + post
  {
  }

  lemma FrontGap(hs: seq<Block>, b: Block)
    requires hs == [] || b.End() < hs[0].base
    requires |hs| > 1 ==> hs[0].End() < hs[1].base
    ensures FreeAt(hs, b, 0) == [b] + hs
  {
  }

  /** Insertion after hole a: merge looks at a, the freed block, and the successor. */
  lemma FreeAfter(pre: seq<Block>, a: Block, b: Block, post: seq<Block>)
    returns (mid: seq<Block>, j: Block, rest: seq<Block>)
    ensures post == mid + rest && |mid| <= 1
    ensures FreeAt(pre + [a] + post, b, |pre| + 1) ==
            if a.End() == b.base then pre + [j] + rest else pre + [a] + [j] + rest
    ensures j.base == if a.End() == b.base then a.base else b.base
    ensures mid == [] ==> j.End() == b.End() && (post == [] || b.End() != post[0].base)
    ensures mid != [] ==> b.End() == mid[0].base && j.End() == mid[0].End()
  {
    var hs := pre + [a] + post;
    assert hs[..|pre| + 1] == pre + [a] && hs[|pre| + 1..] == post;
    var l := pre + [a] + [b] + post;
    assert l == pre + [a, b] + post;
    assert l[|pre|] == a && l[|pre| + 1] == b;
    if a.End() == b.base {
      AbsorbTouching(pre, a, b, post);
      mid, j, rest := AbsorbRight(pre, Block(a.base, a.len + b.len), post);
    } else {
      mid, j, rest := AbsorbRight(pre + [a], b, post);
    }
  }

  /** Freeing replaces the touching neighbours hs[n..m], if any, by the joined block j. */
  ghost predicate Shape(hs: seq<Block>, b: Block, k: nat, n: nat, m: nat, j: Block)
    requires k <= |hs|
  {
    && n <= k <= m <= |hs| && k - 1 <= n && m <= k + 1
    && FreeAt(hs, b, k) == hs[..n] + [j] + hs[m..]
    && j.base == (if n < k then hs[n].base else b.base)
    && (if n < k then hs[n].End() == b.base else k > 0 ==> hs[k - 1].End() != b.base)
    && j.End() == (if m > k then hs[k].End() else b.End())
    && (if m > k then b.End() == hs[k].base else k < |hs| ==> b.End() != hs[k].base)
  }

  lemma ShapeAtFront(hs: seq<Block>, b: Block) returns (m: nat, j: Block)
    requires Canonical(hs) && Between(hs, b, 0)
    ensures Shape(hs, b, 0, 0, m, j)
  {
    if hs != [] && b.End() == hs[0].base {
      m, j := 1, Block(b.base, b.len + hs[0].len);
      assert hs == [hs[0]] + hs[1..];
      FrontTouching(b, hs[0], hs[1..]);
    } else {
      m, j := 0, b;
      FrontGap(hs, b);
    }
    assert hs[..0] + [j] + hs[m..] == [j] + hs[m..];
  }

  lemma ShapeAfter(hs: seq<Block>, b: Block, k: nat) returns (n: nat, m: nat, j: Block)
    requires 0 < k <= |hs|
    ensures Shape(hs, b, k, n, m, j)
  {
    var a, tail := hs[k - 1], hs[k..];
    assert hs == hs[..k - 1] + [a] + tail;
    var right, rest;
    right, j, rest := FreeAfter(hs[..k - 1], a, b, tail);
    n, m := if a.End() == b.base then k - 1 else k, k + |right|;
    assert rest == hs[m..];
    if right != [] { assert right[0] == tail[0] == hs[k]; }
    assert hs[..k - 1] + [a] == hs[..k];
  }

  lemma FreeShape(hs: seq<Block>, b: Block) returns (k: nat, n: nat, m: nat, j: Block)
    requires Canonical(hs) && b.len > 0 && Apart(hs, b)
    ensures Between(hs, b, k) && Free(hs, b) == FreeAt(hs, b, k) && Shape(hs, b, k, n, m, j)
  {
    ApartBetween(hs, b);
    k := Position(hs, b.base);
    if k == 0 {
      n := 0;
      m, j := ShapeAtFront(hs, b);
    } else {
      n, m, j := ShapeAfter(hs, b, k);
    }
  }

  lemma JoinedBounds(hs: seq<Block>, b: Block, k: nat, n: nat, m: nat, j: Block)
    requires Canonical(hs) && b.len > 0 && Between(hs, b, k) && Shape(hs, b, k, n, m, j)
    ensures forall i :: 0 <= i < n ==> hs[i].End() < j.base
    ensures forall i :: m <= i < |hs| ==> j.End() < hs[i].base
    ensures j.len > 0
  {
  }

  lemma CanonicalConcat(a: seq<Block>, b: seq<Block>)
    requires Canonical(a) && Canonical(b)
    requires forall i, j :: 0 <= i < |a| && 0 <= j < |b| ==> a[i].End() < b[j].base
    ensures Canonical(a + b)
  {
  }

  lemma SpliceCanonical(hs: seq<Block>, n: nat, m: nat, j: Block)
    requires Canonical(hs) && n <= m <= |hs|
    requires Canonical(hs[..n] + [j]) && Canonical([j] + hs[m..])
    ensures Canonical(hs[..n] + [j] + hs[m..])
  {
    var pre, post := hs[..n] + [j], hs[m..];
    assert forall i :: 0 <= i < |post| ==> post[i] == ([j] + post)[i + 1];
    forall i, k | 0 <= i < |pre| && 0 <= k < |post|
      ensures pre[i].End() < post[k].base
    {
      if i < n { assert hs[i].End() < hs[m + k].base; } else { assert ([j] + post)[0].End() < ([j] + post)[k + 1].base; }
    }
    CanonicalConcat(pre, post);
  }

  lemma JoinedCanonical(hs: seq<Block>, b: Block, k: nat, n: nat, m: nat, j: Block)
    requires Canonical(hs) && b.len > 0 && Between(hs, b, k) && Shape(hs, b, k, n, m, j)
    ensures Canonical(hs[..n] + [j] + hs[m..])
  {
    JoinedBounds(hs, b, k, n, m, j);
    hide Shape, Between;
    CanonicalConcat(hs[..n], [j]);
    CanonicalConcat([j], hs[m..]);
    SpliceCanonical(hs, n, m, j);
  }

  lemma JoinedCovers(hs: seq<Block>, b: Block, k: nat, n: nat, m: nat, j: Block, x: int)
    requires Canonical(hs) && Between(hs, b, k) && Shape(hs, b, k, n, m, j)
    ensures Covers(hs[..n] + [j] + hs[m..], x) <==> Covers(hs, x) || In(b, x)
  {
    hide Canonical, FreeAt, Between, Covers;
    assert hs == hs[..n] + hs[n..m] + hs[m..];
    CoversAround(hs[..n], hs[n..m], hs[m..], x);
    CoversAround(hs[..n], [j], hs[m..], x);
    CoversOne(j, x);
    MiddleClicks(hs, n, k, m, x);
  }

  lemma MiddleClicks(hs: seq<Block>, n: nat, k: nat, m: nat, x: int)
    requires n <= k <= m <= |hs| && k - 1 <= n && m <= k + 1
    ensures Covers(hs[n..m], x) <==> (n < k && In(hs[n], x)) || (k < m && In(hs[k], x))
  {
  }

  lemma FreeCanonical(hs: seq<Block>, b: Block)
    requires Canonical(hs) && Apart(hs, b)
    ensures Canonical(Free(hs, b))
  {
    if b.len > 0 {
      var k, n, m, j := FreeShape(hs, b);
      JoinedCanonical(hs, b, k, n, m, j);
    }
  }

  lemma FreeLength(hs: seq<Block>, b: Block)
    requires Canonical(hs) && Apart(hs, b)
    ensures |Free(hs, b)| <= |hs| + 1
  {
  }

  lemma FreeCovers(hs: seq<Block>, b: Block, x: int)
    requires Canonical(hs) && Apart(hs, b)
    ensures Covers(Free(hs, b), x) <==> Covers(hs, x) || In(b, x)
  {
    if b.len > 0 {
      var k, n, m, j := FreeShape(hs, b);
      JoinedCovers(hs, b, k, n, m, j, x);
    }
  }

  // ---------------------------------------------------------------- canonical form

  /** Two canonical lists covering the same clicks are the same list. */
  lemma {:induction false} CanonicalUnique(a: seq<Block>, b: seq<Block>)
    requires Canonical(a) && Canonical(b)
    requires forall x :: Covers(a, x) <==> Covers(b, x)
    ensures a == b
  {
    if a == [] {
      if b != [] { assert In(b[0], b[0].base); assert Covers(b, b[0].base); }
    } else {
      assert In(a[0], a[0].base);
      assert Covers(a, a[0].base);
      assert b != [] && In(b[0], b[0].base);
      assert Covers(b, b[0].base);
      FirstEqual(a, b);
      forall x
        ensures Covers(a[1..], x) <==> Covers(b[1..], x)
      {
        TailCovers(a, x);
        TailCovers(b, x);
      }
      CanonicalUnique(a[1..], b[1..]);
      assert a == [a[0]] + a[1..] && b == [b[0]] + b[1..];
    }
  }

  lemma TailCovers(a: seq<Block>, x: int)
    requires Canonical(a) && a != []
    ensures Covers(a[1..], x) <==> Covers(a, x) && !In(a[0], x)
  {
  }

  /** The first hole is the first run of free clicks. */
  lemma FirstIsRun(a: seq<Block>)
    requires Canonical(a) && a != []
    ensures forall x :: Covers(a, x) ==> a[0].base <= x
    ensures forall x :: In(a[0], x) ==> Covers(a, x)
    ensures !Covers(a, a[0].End())
  {
  }

  lemma FirstEqual(a: seq<Block>, b: seq<Block>)
    requires Canonical(a) && Canonical(b) && a != [] && b != []
    requires forall x :: Covers(a, x) <==> Covers(b, x)
    ensures a[0] == b[0]
  {
    FirstIsRun(a);
    FirstIsRun(b);
    assert In(a[0], a[0].base) && In(b[0], b[0].base);
    assert a[0].base == b[0].base;
    assert !In(b[0], a[0].End()) && !In(a[0], b[0].End());
  }

  /** Freeing what was just allocated gives back exactly the list there was before. */
  lemma FreeUndoesTake(hs: seq<Block>, k: nat, clicks: nat)
    requires Canonical(hs) && k < |hs| && clicks <= hs[k].len
    ensures Free(Take(hs, k, clicks), Block(hs[k].base, clicks)) == hs
  {
    var t, b := Take(hs, k, clicks), Block(hs[k].base, clicks);
    if clicks > 0 {
      TakeCanonical(hs, k, clicks);
      forall x
        ensures Covers(t, x) <==> Covers(hs, x) && !In(b, x)
        ensures In(b, x) ==> Covers(hs, x)
      {
        TakeCovers(hs, k, clicks, x);
      }
      FreeCanonical(t, b);
      forall x ensures Covers(Free(t, b), x) <==> Covers(hs, x) { FreeCovers(t, b, x); }
      CanonicalUnique(Free(t, b), hs);
    }
  }

  /** Blocks apart from the holes and from each other. */
  ghost predicate AllApart(hs: seq<Block>, bs: seq<Block>) {
    && (forall i :: 0 <= i < |bs| ==> Apart(hs, bs[i]))
    && (forall i, j, x :: 0 <= i < j < |bs| && In(bs[i], x) ==> !In(bs[j], x))
  }

  function FreeAll(hs: seq<Block>, bs: seq<Block>): seq<Block>
    decreases bs
  {
    if bs == [] then hs else FreeAll(Free(hs, bs[0]), bs[1..])
  }

  lemma {:induction false} FreeAllKeeps(hs: seq<Block>, bs: seq<Block>)
    requires Canonical(hs) && AllApart(hs, bs)
    ensures Canonical(FreeAll(hs, bs))
    ensures forall x :: Covers(FreeAll(hs, bs), x) <==> Covers(hs, x) || Covers(bs, x)
    decreases bs
  {
    if bs != [] {
      var once := Free(hs, bs[0]);
      FreeCanonical(hs, bs[0]);
      forall x
        ensures Covers(once, x) <==> Covers(hs, x) || In(bs[0], x)
        ensures Covers(bs, x) <==> In(bs[0], x) || Covers(bs[1..], x)
      {
        FreeCovers(hs, bs[0], x);
        assert bs == [bs[0]] + bs[1..];
        CoversConcat([bs[0]], bs[1..], x);
        CoversOne(bs[0], x);
      }
      forall i, x | 0 <= i < |bs[1..]| && In(bs[1..][i], x)
        ensures !Covers(once, x)
      {
        assert bs[1..][i] == bs[i + 1];
      }
      assert AllApart(once, bs[1..]);
      FreeAllKeeps(once, bs[1..]);
    }
  }

  /** The order in which disjoint blocks are freed does not matter. */
  lemma FreeOrderIrrelevant(hs: seq<Block>, bs: seq<Block>, cs: seq<Block>)
    requires Canonical(hs) && AllApart(hs, bs) && AllApart(hs, cs)
    requires multiset(bs) == multiset(cs)
    ensures FreeAll(hs, bs) == FreeAll(hs, cs)
  {
    FreeAllKeeps(hs, bs);
    FreeAllKeeps(hs, cs);
    forall x
      ensures Covers(bs, x) <==> Covers(cs, x)
    {
      if Covers(bs, x) { SameMembersCover(bs, cs, x); }
      if Covers(cs, x) { SameMembersCover(cs, bs, x); }
    }
    CanonicalUnique(FreeAll(hs, bs), FreeAll(hs, cs));
  }

  lemma SameMembersCover(bs: seq<Block>, cs: seq<Block>, x: int)
    requires multiset(bs) == multiset(cs) && Covers(bs, x)
    ensures Covers(cs, x)
  {
    var i :| 0 <= i < |bs| && In(bs[i], x);
    assert bs[i] in multiset(bs);
    assert bs[i] in multiset(cs);
    assert bs[i] in cs;
  }
}
