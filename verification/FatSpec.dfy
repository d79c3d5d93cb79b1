/** The volume of file-system/fs.cpp: 64 blocks of 32 bytes, chained through the file allocation
    table, and a table of descriptors. Everything here is about values; FileSystem has the methods. */
module FatSpec {
  import opened Chains

  const BLOCK_SIZE := 32
  const MEMORY_SIZE := 2048
  const NUM_BLOCKS := 64
  const NUM_FILES := 16
  const NUM_OPENED_FILES := 8
  const FREE_BLOCK := -1
  const NO_OPENED_FILE := -1
  const END_OF_CHAIN := -2
  const MAX_NAME_SIZE := 10
  const MIN_NAME_SIZE := 1

  datatype FileDescriptor = FileDescriptor(name: string, starting_block: int, size: int)
  datatype OpenedFile = OpenedFile(idx: int, offset: int)

  const EMPTY_DESCRIPTOR := FileDescriptor("", -1, -1)

  /** (size + BLOCK_SIZE - 1) / BLOCK_SIZE, with C's division towards zero. */
  function Blocks(size: int): (n: int)
    ensures size >= 0 ==> BLOCK_SIZE * (n - 1) < size <= BLOCK_SIZE * n && n >= 0
    ensures size < 0 ==> n <= 0
  {
    var up := size + BLOCK_SIZE - 1;
    if up >= 0 then up / BLOCK_SIZE else -((-up) / BLOCK_SIZE)
  }

  // ---------------------------------------------------------------- the allocation table

  /** Every chain ends, and comes to no block twice. */
  ghost predicate Terminated(fat: seq<int>, chains: seq<seq<int>>) {
    forall f :: 0 <= f < |chains| ==> chains[f] != [] && Segment(fat, chains[f], END_OF_CHAIN) && Distinct(chains[f])
  }

  ghost predicate FreeElsewhere(fat: seq<int>, chains: seq<seq<int>>) {
    forall b :: 0 <= b < |fat| ==> (fat[b] == FREE_BLOCK <==> Nowhere(chains, b))
  }

  /** Every block that is not free is on exactly one chain, once. */
  ghost predicate Partition(fat: seq<int>, chains: seq<seq<int>>) {
    |fat| == NUM_BLOCKS && Separate(chains) && Terminated(fat, chains) && FreeElsewhere(fat, chains)
  }

  function CountFree(fat: seq<int>): nat {
    if fat == [] then 0 else CountFree(fat[..|fat| - 1]) + if fat[|fat| - 1] == FREE_BLOCK then 1 else 0
  }

  /** The first free block, or -1. */
  predicate IsFirstFree(fat: seq<int>, b: int) {
    if b == -1 then forall i :: 0 <= i < |fat| ==> fat[i] != FREE_BLOCK
    else 0 <= b < |fat| && fat[b] == FREE_BLOCK && forall i :: 0 <= i < b ==> fat[i] != FREE_BLOCK
  }

  lemma {:induction false} CountFreeUpdate(fat: seq<int>, b: nat, v: int)
    requires b < |fat|
    ensures CountFree(fat[b := v]) ==
            CountFree(fat) - (if fat[b] == FREE_BLOCK then 1 else 0) + (if v == FREE_BLOCK then 1 else 0)
  {
    var m := |fat| - 1;
    if b < m {
      CountFreeUpdate(fat[..m], b, v);
      assert fat[b := v][..m] == fat[..m][b := v];
    } else {
      assert fat[b := v][..m] == fat[..m];
    }
  }

  lemma {:induction false} CountFreeZero(fat: seq<int>)
    ensures CountFree(fat) == 0 <==> forall i :: 0 <= i < |fat| ==> fat[i] != FREE_BLOCK
  {
    if fat != [] { CountFreeZero(fat[..|fat| - 1]); }
  }

  lemma FirstFreeCount(fat: seq<int>, b: int)
    requires IsFirstFree(fat, b)
    ensures b == -1 <==> CountFree(fat) == 0
  {
    CountFreeZero(fat);
  }

  /** A block on a chain is not free, and the last one alone is marked as the end. */
  lemma OnChain(fat: seq<int>, chains: seq<seq<int>>, f: int, i: nat)
    requires Partition(fat, chains) && 0 <= f < |chains| && i < |chains[f]|
    ensures 0 <= chains[f][i] < NUM_BLOCKS && fat[chains[f][i]] == After(chains[f], i, END_OF_CHAIN)
    ensures fat[chains[f][i]] == END_OF_CHAIN <==> i + 1 == |chains[f]|
    ensures fat[chains[f][i]] != FREE_BLOCK && |chains[f]| <= NUM_BLOCKS == |fat|
  {
    assert chains[f][i] in chains[f];
    if i + 1 < |chains[f]| { assert 0 <= chains[f][i + 1]; }
    DistinctBound(chains[f], NUM_BLOCKS);
  }

  // ---------------------------------------------------------------- growing, making and freeing chains

  /** A free block b linked in behind the last block of a chain. */
  lemma SegmentGrow(fat: seq<int>, l: seq<int>, b: int)
    requires Segment(fat, l, END_OF_CHAIN) && Distinct(l) && l != [] && 0 <= b < |fat| && b !in l
    ensures 0 <= l[|l| - 1] < |fat|
    ensures Segment(fat[l[|l| - 1] := b][b := END_OF_CHAIN], l + [b], END_OF_CHAIN) && Distinct(l + [b])
  {
    var last := l[|l| - 1];
    SegmentSplit(fat, l, |l| - 1, END_OF_CHAIN);
    var pre, fat' := l[..|l| - 1], fat[last := b][b := END_OF_CHAIN];
    hide Segment;
    SegmentUpdate(fat, pre, last, last, b);
    SegmentUpdate(fat[last := b], pre, last, b, END_OF_CHAIN);
    SegmentOne(fat', last, b);
    SegmentConcat(fat', pre, [last], b);
    SegmentOne(fat', b, END_OF_CHAIN);
    assert l == pre + [last];
    SegmentConcat(fat', l, [b], END_OF_CHAIN);
  }

  /** b is on no chain but perhaps f. */
  ghost predicate NowhereElse(chains: seq<seq<int>>, f: int, b: int) {
    forall g :: 0 <= g < |chains| && g != f ==> b !in chains[g]
  }

  lemma NowhereReplaced(chains: seq<seq<int>>, f: int, l: seq<int>, b: int)
    requires 0 <= f < |chains|
    ensures Nowhere(chains[f := l], b) <==> b !in l && NowhereElse(chains, f, b)
    ensures Nowhere(chains, b) <==> b !in chains[f] && NowhereElse(chains, f, b)
  {
    var c2 := chains[f := l];
    assert c2[f] == l;
    if b !in l && NowhereElse(chains, f, b) {
      forall a | 0 <= a < |c2| ensures b !in c2[a] {}
    }
    if Nowhere(c2, b) {
      forall g | 0 <= g < |chains| && g != f ensures b !in chains[g] { assert c2[g] == chains[g]; }
    }
  }

  lemma ApartReplaced(chains: seq<seq<int>>, f: int, l: seq<int>)
    requires Separate(chains) && 0 <= f < |chains| && forall x :: x in l ==> NowhereElse(chains, f, x)
    ensures Separate(chains[f := l])
    ensures forall x :: x in chains[f] ==> NowhereElse(chains, f, x)
  {
  }

  lemma SegmentKept(fat: seq<int>, fat': seq<int>, l: seq<int>)
    requires Segment(fat, l, END_OF_CHAIN) && |fat'| == |fat| && forall x :: x in l && 0 <= x < |fat| ==> fat'[x] == fat[x]
    ensures Segment(fat', l, END_OF_CHAIN)
  {
    forall i | 0 <= i < |l| ensures fat'[l[i]] == fat[l[i]] { assert l[i] in l; }
  }

  /** Chain f alone is changed: its blocks that are not in l are free now, and those new in l were. */
  ghost predicate Changed(fat: seq<int>, chains: seq<seq<int>>, f: int, fat': seq<int>, l: seq<int>)
    requires 0 <= f < |chains|
  {
    && |fat'| == |fat|
    && (forall x :: x in l ==> 0 <= x < |fat| && fat'[x] != FREE_BLOCK && (x in chains[f] || fat[x] == FREE_BLOCK))
    && (forall b :: 0 <= b < |fat| && b !in l ==> fat'[b] == if b in chains[f] then FREE_BLOCK else fat[b])
  }

  lemma ChangedElsewhere(fat: seq<int>, chains: seq<seq<int>>, f: int, fat': seq<int>, l: seq<int>)
    requires Partition(fat, chains) && 0 <= f < |chains| && Changed(fat, chains, f, fat', l)
    ensures forall x :: x in l ==> NowhereElse(chains, f, x)
    ensures forall g :: 0 <= g < |chains| && g != f ==> Segment(fat', chains[g], END_OF_CHAIN)
    ensures forall b :: 0 <= b < NUM_BLOCKS ==> (fat'[b] == FREE_BLOCK <==> b !in l && NowhereElse(chains, f, b))
  {
    ApartReplaced(chains, f, []);
    forall x | x in l ensures NowhereElse(chains, f, x) {
      NowhereReplaced(chains, f, l, x);
    }
    forall g | 0 <= g < |chains| && g != f ensures Segment(fat', chains[g], END_OF_CHAIN) {
      forall x | x in chains[g] && 0 <= x < |fat| ensures fat'[x] == fat[x] {
        assert x !in chains[f];
        assert x !in l;
      }
      SegmentKept(fat, fat', chains[g]);
    }
    hide Segment, Distinct;
    forall b | 0 <= b < NUM_BLOCKS ensures fat'[b] == FREE_BLOCK <==> b !in l && NowhereElse(chains, f, b) {
      NowhereReplaced(chains, f, l, b);
    }
  }

  lemma ChainReplaced(fat: seq<int>, chains: seq<seq<int>>, f: int, fat': seq<int>, l: seq<int>)
    requires Partition(fat, chains) && 0 <= f < |chains| && Changed(fat, chains, f, fat', l)
    requires l != [] && Segment(fat', l, END_OF_CHAIN) && Distinct(l)
    ensures Partition(fat', chains[f := l])
  {
    ChangedElsewhere(fat, chains, f, fat', l);
    ApartReplaced(chains, f, l);
    hide Segment, Distinct, Changed, Separate, NowhereElse;
    forall b | 0 <= b < NUM_BLOCKS ensures fat'[b] == FREE_BLOCK <==> Nowhere(chains[f := l], b) {
      NowhereReplaced(chains, f, l, b);
    }
    hide Nowhere;
  }

  /** A new chain on blocks that were free. */
  lemma ChainAdded(fat: seq<int>, chains: seq<seq<int>>, fat': seq<int>, l: seq<int>)
    requires Partition(fat, chains) && |fat'| == |fat| && l != [] && Segment(fat', l, END_OF_CHAIN) && Distinct(l)
    requires forall x :: x in l ==> 0 <= x < |fat| && fat[x] == FREE_BLOCK && fat'[x] != FREE_BLOCK
    requires forall b :: 0 <= b < |fat| && b !in l ==> fat'[b] == fat[b]
    ensures Partition(fat', chains + [l])
  {
    var more := chains + [l];
    forall g | 0 <= g < |chains| ensures Segment(fat', chains[g], END_OF_CHAIN) {
      forall x | x in chains[g] && 0 <= x < |fat| ensures fat'[x] == fat[x] {
        assert x in l ==> Nowhere(chains, x);
      }
      SegmentKept(fat, fat', chains[g]);
    }
    assert forall x :: x in l ==> Nowhere(chains, x);
    hide Segment, Distinct;
    forall b | 0 <= b < NUM_BLOCKS ensures fat'[b] == FREE_BLOCK <==> Nowhere(more, b) { NowhereAdded(chains, l, b); }
    hide Nowhere, Separate;
    ApartAdded(chains, l);
    forall g | 0 <= g < |more| ensures more[g] != [] && Segment(fat', more[g], END_OF_CHAIN) && Distinct(more[g]) {
      if g == |chains| { assert more[g] == l; }
    }
  }

  lemma NowhereAdded(chains: seq<seq<int>>, l: seq<int>, b: int)
    ensures Nowhere(chains + [l], b) <==> Nowhere(chains, b) && b !in l
  {
    var more := chains + [l];
    assert more[|chains|] == l;
    if Nowhere(more, b) {
      forall g | 0 <= g < |chains| ensures b !in chains[g] { assert more[g] == chains[g]; }
    }
  }

  lemma ApartAdded(chains: seq<seq<int>>, l: seq<int>)
    requires Separate(chains) && forall x :: x in l ==> Nowhere(chains, x)
    ensures Separate(chains + [l])
  {
  }

  function WithoutChain(chains: seq<seq<int>>, f: nat): seq<seq<int>>
    requires f < |chains|
  {
    chains[..f] + chains[f + 1..]
  }

  lemma FreedElsewhere(fat: seq<int>, chains: seq<seq<int>>, f: nat, fat': seq<int>)
    requires Partition(fat, chains) && f < |chains| && |fat'| == |fat|
    requires forall b :: 0 <= b < |fat| ==> fat'[b] == if b in chains[f] then FREE_BLOCK else fat[b]
    ensures forall g :: 0 <= g < |chains| && g != f ==> Segment(fat', chains[g], END_OF_CHAIN)
    ensures forall b :: 0 <= b < NUM_BLOCKS ==> (fat'[b] == FREE_BLOCK <==> NowhereElse(chains, f, b))
  {
    assert Changed(fat, chains, f, fat', []);
    ChangedElsewhere(fat, chains, f, fat', []);
  }

  lemma TerminatedWithout(fat: seq<int>, chains: seq<seq<int>>, f: nat, fat': seq<int>)
    requires Terminated(fat, chains) && f < |chains|
    requires forall g :: 0 <= g < |chains| && g != f ==> Segment(fat', chains[g], END_OF_CHAIN)
    ensures Terminated(fat', WithoutChain(chains, f))
  {
    var rest := WithoutChain(chains, f);
    assert forall g :: 0 <= g < |rest| ==> rest[g] == chains[if g < f then g else g + 1];
  }

  lemma FreeWithout(chains: seq<seq<int>>, f: nat, fat': seq<int>)
    requires f < |chains| && forall b :: 0 <= b < |fat'| ==> (fat'[b] == FREE_BLOCK <==> NowhereElse(chains, f, b))
    ensures FreeElsewhere(fat', WithoutChain(chains, f))
  {
    forall b | 0 <= b < |fat'| ensures fat'[b] == FREE_BLOCK <==> Nowhere(WithoutChain(chains, f), b) {
      NowhereWithout(chains, f, b);
    }
  }

  /** Chain f is freed. */
  lemma ChainFreed(fat: seq<int>, chains: seq<seq<int>>, f: nat, fat': seq<int>)
    requires Partition(fat, chains) && f < |chains| && |fat'| == |fat|
    requires forall b :: 0 <= b < |fat| ==> fat'[b] == if b in chains[f] then FREE_BLOCK else fat[b]
    ensures Partition(fat', WithoutChain(chains, f))
  {
    FreedElsewhere(fat, chains, f, fat');
    hide Segment, Distinct, Nowhere, Separate, NowhereElse, Terminated, FreeElsewhere;
    ApartWithout(chains, f);
    TerminatedWithout(fat, chains, f, fat');
    FreeWithout(chains, f, fat');
  }

  lemma NowhereWithout(chains: seq<seq<int>>, f: nat, b: int)
    requires f < |chains|
    ensures Nowhere(WithoutChain(chains, f), b) <==> NowhereElse(chains, f, b)
  {
    var rest := WithoutChain(chains, f);
    assert forall g :: 0 <= g < |rest| ==> rest[g] == chains[if g < f then g else g + 1];
    if Nowhere(rest, b) {
      forall g | 0 <= g < |chains| && g != f ensures b !in chains[g] {
        assert rest[if g < f then g else g - 1] == chains[g];
      }
    }
  }

  lemma ApartWithout(chains: seq<seq<int>>, f: nat)
    requires f < |chains| && Separate(chains)
    ensures Separate(WithoutChain(chains, f))
  {
    var rest := WithoutChain(chains, f);
    assert forall g :: 0 <= g < |rest| ==> rest[g] == chains[if g < f then g else g + 1];
  }
}
