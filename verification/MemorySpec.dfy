/** Physical memory as a whole: the holes, the blocks handed out, and the swap area, with the
    steps that move clicks between them and what every run of those steps keeps. */
module MemorySpec {
  import opened Chains
  import opened HoleList

  // ---------------------------------------------------------------- free and allocated clicks

  ghost predicate PairwiseApart(live: seq<Block>) {
    forall i, j, x :: 0 <= i < j < |live| && In(live[i], x) ==> !In(live[j], x)
  }

  ghost predicate ApartFrom(hs: seq<Block>, live: seq<Block>) {
    forall i :: 0 <= i < |live| ==> Apart(hs, live[i])
  }

  /** Every click of memory is either in exactly one hole or in exactly one live block. */
  ghost predicate Partition(hs: seq<Block>, live: seq<Block>, mem: set<int>) {
    && Canonical(hs) && PairwiseApart(live) && ApartFrom(hs, live)
    && forall x :: x in mem <==> Covers(hs, x) || Covers(live, x)
  }

  /** Replacing block i by one that misses all the others. */
  lemma Replaced(live: seq<Block>, i: nat, b: Block)
    requires PairwiseApart(live) && i < |live|
    requires forall x :: In(b, x) ==> !Covers(live, x) || In(live[i], x)
    ensures PairwiseApart(live[i := b])
    ensures forall x :: Covers(live[i := b], x) <==> In(b, x) || (Covers(live, x) && !In(live[i], x))
  {
    var r := live[i := b];
    assert forall j :: 0 <= j < |live| && j != i ==> r[j] == live[j];
    forall j, x | 0 <= j < |r| && j != i && In(r[j], x)
      ensures Covers(live, x) && !In(live[i], x) && !In(b, x)
    {
      assert In(live[j], x);
    }
    forall x
      ensures Covers(r, x) <==> In(b, x) || (Covers(live, x) && !In(live[i], x))
    {
      if In(b, x) { assert In(r[i], x); }
      if Covers(live, x) && !In(live[i], x) {
        var j :| 0 <= j < |live| && In(live[j], x);
        assert In(r[j], x);
      }
    }
  }

  lemma AllocKeeps(hs: seq<Block>, live: seq<Block>, mem: set<int>, k: nat, clicks: nat)
    requires Partition(hs, live, mem) && k < |hs| && clicks <= hs[k].len
    ensures Partition(Take(hs, k, clicks), live + [Block(hs[k].base, clicks)], mem)
  {
    var b := Block(hs[k].base, clicks);
    TakeCanonical(hs, k, clicks);
    forall x
      ensures Covers(Take(hs, k, clicks), x) <==> Covers(hs, x) && !In(b, x)
      ensures In(b, x) ==> Covers(hs, x)
      ensures Covers(live + [b], x) <==> Covers(live, x) || In(b, x)
    {
      TakeCovers(hs, k, clicks, x);
      CoversConcat(live, [b], x);
      CoversOne(b, x);
    }
  }

  lemma FreeKeeps(hs: seq<Block>, live: seq<Block>, mem: set<int>, i: nat)
    requires Partition(hs, live, mem) && i < |live|
    ensures Partition(Free(hs, live[i]), live[i := Block(live[i].base, 0)], mem)
  {
    var b := live[i];
    assert Apart(hs, b);
    FreeCanonical(hs, b);
    Replaced(live, i, Block(b.base, 0));
    forall x ensures Covers(Free(hs, b), x) <==> Covers(hs, x) || In(b, x) { FreeCovers(hs, b, x); }
    forall x | In(b, x) ensures Covers(live, x) { assert In(live[i], x); }
    forall j, x | 0 <= j < |live| && j != i && In(live[j], x)
      ensures !Covers(Free(hs, b), x)
    {
      assert Apart(hs, live[j]);
    }
  }

  /** Moving block i into hole k, as swapping does: allocate first, free afterwards. */
  lemma MoveKeeps(hs: seq<Block>, live: seq<Block>, mem: set<int>, i: nat, k: nat)
    requires Partition(hs, live, mem) && i < |live| && k < |hs| && live[i].len <= hs[k].len
    ensures var n := live[i].len;
            Partition(Free(Take(hs, k, n), live[i]), live[i := Block(hs[k].base, n)], mem)
  {
    var b := Block(hs[k].base, live[i].len);
    AllocKeeps(hs, live, mem, k, live[i].len);
    var t := Take(hs, k, live[i].len);
    FreeKeeps(t, live + [b], mem, i);
    Moved(Free(t, live[i]), live, mem, i, b);
  }

  lemma Moved(hs: seq<Block>, live: seq<Block>, mem: set<int>, i: nat, b: Block)
    requires i < |live| && PairwiseApart(live + [b]) && PairwiseApart(live)
    requires Partition(hs, (live + [b])[i := Block(live[i].base, 0)], mem)
    ensures Partition(hs, live[i := b], mem)
  {
    var l, r := (live + [b])[i := Block(live[i].base, 0)], live[i := b];
    assert l[|live|] == b && (live + [b])[|live|] == b;
    assert forall j :: 0 <= j < |live| && j != i ==> l[j] == live[j] == (live + [b])[j];
    forall j, x | 0 <= j < |live| && In(live[j], x)
      ensures !In(b, x)
    {
      assert In((live + [b])[j], x) && !In((live + [b])[|live|], x);
    }
    Replaced(live, i, b);
    Replaced(live + [b], i, Block(live[i].base, 0));
    forall x
      ensures Covers(r, x) <==> Covers(l, x)
    {
      CoversConcat(live, [b], x);
      CoversOne(b, x);
      if In(live[i], x) { assert Covers(live, x); }
    }
    forall j | 0 <= j < |r|
      ensures Apart(hs, r[j])
    {
      assert r[j] == if j == i then l[|live|] else l[j];
    }
  }

  // ---------------------------------------------------------------- fragmentation

  /** Where a stretch of managed memory ends: the click after it is nobody's. */
  ghost function Ends(mem: set<int>): set<int> {
    set x | x in mem && LastOf(mem, x) :: x + 1
  }

  ghost predicate LastOf(mem: set<int>, x: int) {
    x + 1 !in mem
  }

  ghost function Bases(live: seq<Block>): set<int> {
    set i | 0 <= i < |live| && live[i].len > 0 :: live[i].base
  }

  function CountNonEmpty(live: seq<Block>): nat {
    if live == [] then 0 else CountNonEmpty(live[..|live| - 1]) + if live[|live| - 1].len > 0 then 1 else 0
  }

  lemma {:induction false} BasesSize(live: seq<Block>)
    ensures |Bases(live)| <= CountNonEmpty(live)
  {
    if live != [] {
      var m := |live| - 1;
      BasesSize(live[..m]);
      var more := if live[m].len > 0 then {live[m].base} else {};
      assert Bases(live) == Bases(live[..m]) + more;
    }
  }

  ghost function HoleEnds(hs: seq<Block>): set<int> {
    set i | 0 <= i < |hs| :: hs[i].End()
  }

  lemma {:induction false} HoleEndsSize(hs: seq<Block>)
    requires Canonical(hs)
    ensures |HoleEnds(hs)| == |hs|
  {
    if hs != [] {
      var m := |hs| - 1;
      HoleEndsSize(hs[..m]);
      assert HoleEnds(hs) == HoleEnds(hs[..m]) + {hs[m].End()};
      forall i | 0 <= i < m ensures hs[i].End() < hs[m].End() { assert hs[i].End() < hs[m].base; }
    }
  }

  /** The click after a hole begins a live block, or lies past the end of a stretch of memory. */
  lemma AfterHole(hs: seq<Block>, live: seq<Block>, mem: set<int>, i: nat)
    requires Partition(hs, live, mem) && i < |hs|
    ensures hs[i].End() in Bases(live) + Ends(mem)
  {
    var e := hs[i].End();
    assert In(hs[i], e - 1);
    assert Covers(hs, e - 1) && e - 1 in mem;
    if e in mem {
      forall j | 0 <= j < |hs|
        ensures !In(hs[j], e)
      {
        if j < i { assert hs[j].End() < hs[i].base; } else if j > i { assert hs[i].End() < hs[j].base; }
      }
      var j :| 0 <= j < |live| && In(live[j], e);
      assert Apart(hs, live[j]) && !In(live[j], e - 1);
      assert live[j].base == e;
    } else {
      assert LastOf(mem, e - 1);
    }
  }

  /** However fragmented memory gets, there are no more holes than live blocks and ends. */
  lemma HoleBound(hs: seq<Block>, live: seq<Block>, mem: set<int>)
    requires Partition(hs, live, mem)
    ensures |hs| <= CountNonEmpty(live) + |Ends(mem)|
  {
    HoleEndsSize(hs);
    BasesSize(live);
    forall e | e in HoleEnds(hs)
      ensures e in Bases(live) + Ends(mem)
    {
      var i :| 0 <= i < |hs| && hs[i].End() == e;
      AfterHole(hs, live, mem, i);
    }
    SubsetSize(HoleEnds(hs), Bases(live) + Ends(mem));
  }
}
