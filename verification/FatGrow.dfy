/** Growing a file block by block, what happens when the blocks run out, and what a write leaves. */
module FatGrow {
  import opened Chains
  import opened FatSpec
  import opened FatData

  function LastOf(l: seq<int>): int
    requires l != []
  {
    l[|l| - 1]
  }

  /** Chain g has been given the blocks `added`, one by one, out of the free ones. */
  ghost predicate Grown(fat0: seq<int>, chains: seq<seq<int>>, g: int, fat: seq<int>, added: seq<int>) {
    && 0 <= g < |chains| && chains[g] != [] && |fat| == |fat0|
    && Partition(fat, chains[g := chains[g] + added])
    && CountFree(fat) + |added| == CountFree(fat0)
    && (forall x :: x in added ==> 0 <= x < |fat| && fat0[x] == FREE_BLOCK)
    && (forall b :: 0 <= b < |fat| && b !in added && b != LastOf(chains[g]) ==> fat[b] == fat0[b])
    && (added == [] ==> fat == fat0)
    && (added != [] ==> 0 <= LastOf(chains[g]) < |fat| && fat[LastOf(chains[g])] == added[0])
  }

  lemma GrowStarts(fat: seq<int>, chains: seq<seq<int>>, g: int)
    requires Partition(fat, chains) && 0 <= g < |chains|
    ensures Grown(fat, chains, g, fat, [])
  {
    assert chains[g] + [] == chains[g];
    assert chains[g := chains[g]] == chains;
  }

  lemma FreeIsElsewhere(fat: seq<int>, chains: seq<seq<int>>, g: int, b: int)
    requires Partition(fat, chains) && 0 <= g < |chains| && 0 <= b < |fat| && fat[b] == FREE_BLOCK
    ensures chains[g] != [] && b !in chains[g] && 0 <= LastOf(chains[g]) < |fat| && LastOf(chains[g]) != b
    ensures Segment(fat, chains[g], END_OF_CHAIN) && Distinct(chains[g])
    ensures forall x :: x in chains[g] ==> 0 <= x < |fat| && fat[x] != FREE_BLOCK
  {
  }

  /** The block b, so far free, linked in behind the last. */
  lemma GrowPartition(fat: seq<int>, chains: seq<seq<int>>, g: int, b: int)
    requires Partition(fat, chains) && 0 <= g < |chains| && 0 <= b < |fat| && fat[b] == FREE_BLOCK
    ensures chains[g] != [] && 0 <= LastOf(chains[g]) < |fat| && b !in chains[g] && LastOf(chains[g]) != b
    ensures Partition(fat[LastOf(chains[g]) := b][b := END_OF_CHAIN], chains[g := chains[g] + [b]])
  {
    FreeIsElsewhere(fat, chains, g, b);
    var l := chains[g];
    SegmentGrow(fat, l, b);
    hide Partition, Segment, Distinct;
    var fat', l' := fat[LastOf(l) := b][b := END_OF_CHAIN], l + [b];
    assert LastOf(l) in l;
    forall x ensures x in l' <==> x in l || x == b { assert l'[|l|] == b; }
    ChainReplaced(fat, chains, g, fat', l');
  }

  lemma GrowMore(fat0: seq<int>, chains: seq<seq<int>>, g: int, fat: seq<int>, added: seq<int>, b: int)
    requires Grown(fat0, chains, g, fat, added) && 0 <= b < |fat| && fat[b] == FREE_BLOCK
    ensures var last := LastOf(chains[g] + added);
            0 <= last < |fat| && last != b && Grown(fat0, chains, g, fat[last := b][b := END_OF_CHAIN], added + [b])
  {
    var grown, l := chains[g := chains[g] + added], chains[g] + added;
    hide Partition;
    var last := LastOf(l);
    GrowPartition(fat, grown, g, b);
    OnChain(fat, grown, g, |l| - 1);
    assert grown[g := l + [b]] == chains[g := chains[g] + (added + [b])] by { assert l + [b] == chains[g] + (added + [b]); }
    CountFreeUpdate(fat, last, b);
    CountFreeUpdate(fat[last := b], b, END_OF_CHAIN);
    GrowFrame(fat0, chains, g, fat, added, b);
  }

  /** Where the last block is: in the old chain, or the last one added. */
  lemma LastGrown(fat0: seq<int>, chains: seq<seq<int>>, g: int, fat: seq<int>, added: seq<int>)
    requires Grown(fat0, chains, g, fat, added)
    ensures chains[g] != [] && LastOf(chains[g]) in chains[g] + added
    ensures added == [] ==> LastOf(chains[g] + added) == LastOf(chains[g])
    ensures added != [] ==> LastOf(chains[g] + added) in added && LastOf(chains[g] + added) != LastOf(chains[g])
  {
    var l, grown := chains[g] + added, chains[g := chains[g] + added];
    assert Distinct(grown[g]) && grown[g] == l;
    assert LastOf(chains[g]) == l[|chains[g]| - 1];
    if added == [] {
      assert l == chains[g];
    } else {
      assert LastOf(l) == added[|added| - 1];
    }
  }

  lemma GrowFrame(fat0: seq<int>, chains: seq<seq<int>>, g: int, fat: seq<int>, added: seq<int>, b: int)
    requires Grown(fat0, chains, g, fat, added) && 0 <= b < |fat| && fat[b] == FREE_BLOCK
    requires var last := LastOf(chains[g] + added); 0 <= last < |fat| && last != b && b !in chains[g] + added
    ensures var last0, fat', more := LastOf(chains[g]), fat[LastOf(chains[g] + added) := b][b := END_OF_CHAIN], added + [b];
            && (forall x :: x in more ==> 0 <= x < |fat| && fat0[x] == FREE_BLOCK)
            && (forall c :: 0 <= c < |fat| && c !in more && c != last0 ==> fat'[c] == fat0[c])
            && 0 <= last0 < |fat| && fat'[last0] == more[0]
  {
    LastGrown(fat0, chains, g, fat, added);
    hide Partition;
    var more := added + [b];
    forall x ensures x in more <==> x in added || x == b { assert more[|added|] == b; }
  }

  lemma GrownCounts(fat0: seq<int>, chains: seq<seq<int>>, g: int, fat: seq<int>, added: seq<int>)
    requires Grown(fat0, chains, g, fat, added)
    ensures CountFree(fat) + |added| == CountFree(fat0) && |fat| == NUM_BLOCKS && chains[g] != []
    ensures Partition(fat, chains[g := chains[g] + added])
  {
  }

  // ---------------------------------------------------------------- rolling back

  /** The allocation table after the rollback of a write that ran out of space. */
  function RolledBack(fat0: seq<int>, l: seq<int>, added: seq<int>): seq<int>
    requires l != [] && 0 <= LastOf(l) < |fat0| && 0 <= l[0] < |fat0|
  {
    (if added == [] then fat0 else fat0[LastOf(l) := added[0]])[l[0] := END_OF_CHAIN]
  }

  /** The first k blocks added are free again. */
  ghost predicate Clearing(fat: seq<int>, fat': seq<int>, added: seq<int>, k: nat) {
    && k <= |added| && |fat'| == |fat|
    && (forall i :: 0 <= i < k ==> 0 <= added[i] < |fat| && fat'[added[i]] == FREE_BLOCK)
    && (forall b :: 0 <= b < |fat| && (forall i :: 0 <= i < k ==> added[i] != b) ==> fat'[b] == fat[b])
  }

  lemma ClearMore(fat: seq<int>, fat': seq<int>, added: seq<int>, k: nat)
    requires Clearing(fat, fat', added, k) && k < |added| && 0 <= added[k] < |fat|
    ensures Clearing(fat, fat'[added[k] := FREE_BLOCK], added, k + 1)
  {
  }

  lemma AddedChain(fat0: seq<int>, chains: seq<seq<int>>, g: int, fat: seq<int>, added: seq<int>, i: nat)
    requires Grown(fat0, chains, g, fat, added) && i < |added|
    ensures 0 <= added[i] < |fat| && fat[added[i]] == After(added, i, END_OF_CHAIN) && added[i] >= 0
    ensures forall j :: 0 <= j < |added| && j != i ==> added[j] != added[i]
  {
    var l, grown := chains[g] + added, chains[g := chains[g] + added];
    assert grown[g] == l;
    OnChain(fat, grown, g, |chains[g]| + i);
    assert l[|chains[g]| + i] == added[i];
    forall j | 0 <= j < |added| && j != i ensures added[j] != added[i] { assert l[|chains[g]| + j] == added[j]; }
  }

  lemma ClearEnds(fat0: seq<int>, chains: seq<seq<int>>, g: int, fat: seq<int>, added: seq<int>, fat': seq<int>)
    requires Partition(fat0, chains) && Grown(fat0, chains, g, fat, added) && Clearing(fat, fat', added, |added|)
    ensures 0 <= LastOf(chains[g]) < |fat0| && 0 <= chains[g][0] < |fat0|
    ensures fat'[chains[g][0] := END_OF_CHAIN] == RolledBack(fat0, chains[g], added)
  {
    var l := chains[g];
    OnChain(fat0, chains, g, |l| - 1);
    OnChain(fat0, chains, g, 0);
    var f := if added == [] then fat0 else fat0[LastOf(l) := added[0]];
    forall b | 0 <= b < |fat0| ensures fat'[b] == f[b] {
      if b in added {
        var i :| 0 <= i < |added| && added[i] == b;
        assert fat'[added[i]] == FREE_BLOCK;
        assert fat0[LastOf(l)] != FREE_BLOCK;
      }
    }
    assert fat' == f;
  }

  /** A first block starts one chain only. */
  lemma {:induction false} OneChain(fat: seq<int>, a: seq<int>, b: seq<int>)
    requires Segment(fat, a, END_OF_CHAIN) && Segment(fat, b, END_OF_CHAIN) && a != [] && b != [] && a[0] == b[0]
    ensures a == b
  {
    if |a| == 1 || |b| == 1 {
      assert After(a, 0, END_OF_CHAIN) == After(b, 0, END_OF_CHAIN);
    } else {
      SegmentConcat(fat, [a[0]], a[1..], END_OF_CHAIN);
      SegmentConcat(fat, [b[0]], b[1..], END_OF_CHAIN);
      assert a == [a[0]] + a[1..] && b == [b[0]] + b[1..];
      OneChain(fat, a[1..], b[1..]);
    }
  }

  /** After the rollback, the chain of the file is its first block alone, the others are as they were. */
  lemma RolledBackChains(fat0: seq<int>, chains: seq<seq<int>>, g: int, added: seq<int>, h: int)
    requires Partition(fat0, chains) && 0 <= g < |chains| && 0 <= h < |chains| && chains[g] != []
    ensures 0 <= LastOf(chains[g]) < |fat0| && 0 <= chains[g][0] < |fat0|
    ensures Segment(RolledBack(fat0, chains[g], added), if h == g then [chains[g][0]] else chains[h], END_OF_CHAIN)
  {
    hide Partition;
    var l := chains[g];
    OnChain(fat0, chains, g, 0);
    OnChain(fat0, chains, g, |l| - 1);
    if h != g {
      OtherChain(fat0, chains, g, h);
      hide Segment;
      SegmentKept(fat0, RolledBack(fat0, l, added), chains[h]);
    }
  }

  lemma OtherChain(fat: seq<int>, chains: seq<seq<int>>, g: int, h: int)
    requires Partition(fat, chains) && 0 <= g < |chains| && 0 <= h < |chains| && h != g
    ensures Segment(fat, chains[h], END_OF_CHAIN) && chains[g] != []
    ensures chains[g][0] !in chains[h] && LastOf(chains[g]) !in chains[h]
  {
    assert chains[g][0] in chains[g] && LastOf(chains[g]) in chains[g];
  }

  /** A file's second block is still in use after the rollback. */
  lemma SecondBlock(fat0: seq<int>, chains: seq<seq<int>>, g: int, added: seq<int>)
    requires Partition(fat0, chains) && 0 <= g < |chains| && |chains[g]| > 1 && (added != [] ==> added[0] >= 0)
    ensures 0 <= LastOf(chains[g]) < |fat0| && 0 <= chains[g][0] < |fat0| && 0 <= chains[g][1] < |fat0|
    ensures chains[g][0] != chains[g][1] && RolledBack(fat0, chains[g], added)[chains[g][1]] != FREE_BLOCK
    ensures NowhereElse(chains, g, chains[g][1])
    ensures RolledBack(fat0, chains[g], added)[chains[g][0]] != fat0[chains[g][0]]
  {
    OnChain(fat0, chains, g, 0);
    OnChain(fat0, chains, g, 1);
    OnChain(fat0, chains, g, |chains[g]| - 1);
    ApartReplaced(chains, g, []);
  }

  /** The rollback of a write that ran out of space writes END_OF_CHAIN over the link of the file's
      first block. The allocation table is as it was, and still has a chain for each file and nothing
      else, exactly when the file had one block; the other blocks of a longer file stay in use, on no
      chain. The sizes in the directory have no part in this. */
  lemma RollbackExactly(fat0: seq<int>, fds: seq<FileDescriptor>, count: int, chains: seq<seq<int>>, g: int, added: seq<int>,
                        fds': seq<FileDescriptor>)
    requires IsReading(fat0, fds, count, chains) && 0 <= g < count && (added != [] ==> added[0] >= 0)
    requires |fds'| == |fds| && forall f :: 0 <= f < count ==> fds'[f].starting_block == fds[f].starting_block
    ensures 0 <= LastOf(chains[g]) < |fat0| && 0 <= chains[g][0] < |fat0|
    ensures RolledBack(fat0, chains[g], added) == fat0 <==> |chains[g]| == 1
    ensures InOrder(RolledBack(fat0, chains[g], added), fds', count) <==> |chains[g]| == 1
  {
    OnChain(fat0, chains, g, 0);
    OnChain(fat0, chains, g, |chains[g]| - 1);
    var fat := RolledBack(fat0, chains[g], added);
    if |chains[g]| == 1 {
      assert fat == fat0;
      assert IsReading(fat, fds', count, chains);
    } else {
      SecondBlock(fat0, chains, g, added);
      forall read: seq<seq<int>> ensures !IsReading(fat, fds', count, read) {
        if IsReading(fat, fds', count, read) { Orphaned(fat0, fds, count, chains, g, added, read); }
      }
    }
  }

  /** However the table is read after the rollback, the second block is on no chain. */
  lemma Orphaned(fat0: seq<int>, fds: seq<FileDescriptor>, count: int, chains: seq<seq<int>>, g: int, added: seq<int>,
                 read: seq<seq<int>>)
    requires IsReading(fat0, fds, count, chains) && 0 <= g < count && |chains[g]| > 1
    requires 0 <= LastOf(chains[g]) < |fat0| && 0 <= chains[g][0] < |fat0|
    requires |read| == count && Terminated(RolledBack(fat0, chains[g], added), read)
    requires forall h :: 0 <= h < count ==> read[h][0] == fds[h].starting_block
    ensures Nowhere(read, chains[g][1])
  {
    SecondBlock(fat0, chains, g, []);
    hide RolledBack, Partition;
    forall h | 0 <= h < count ensures chains[g][1] !in read[h] {
      RolledBackChains(fat0, chains, g, added, h);
      OneChain(RolledBack(fat0, chains[g], added), if h == g then [chains[g][0]] else chains[h], read[h]);
    }
  }

  // ---------------------------------------------------------------- after a write

  lemma GrownVolume(fat0: seq<int>, fds: seq<FileDescriptor>, count: nat, chains: seq<seq<int>>, g: nat,
                    fat: seq<int>, added: seq<int>, size: int)
    requires Volume(fat0, fds, count, chains) && g < count && Grown(fat0, chains, g, fat, added)
    requires size >= fds[g].size && |added| == Blocks(size) - Blocks(fds[g].size)
    ensures Volume(fat, fds[g := fds[g].(size := size)], count, chains[g := chains[g] + added])
  {
    var fds', chains' := fds[g := fds[g].(size := size)], chains[g := chains[g] + added];
    assert Directory(fds', count);
    forall f | 0 <= f < count
      ensures chains'[f] != [] && fds'[f].starting_block == chains'[f][0] && fds'[f].size >= 0
              && Blocks(fds'[f].size) <= |chains'[f]| <= Blocks(fds'[f].size) + 1 && InVolume(chains'[f])
    {
      InVolumeOf(fat, chains', f);
    }
  }

  lemma InVolumeOf(fat: seq<int>, chains: seq<seq<int>>, f: nat)
    requires Partition(fat, chains) && f < |chains|
    ensures InVolume(chains[f])
  {
  }

  lemma OtherKept(m0: seq<char>, m: seq<char>, fds0: seq<FileDescriptor>, count: nat, chains0: seq<seq<int>>, g: nat, added: seq<int>,
                  fds: seq<FileDescriptor>, o: nat, data: seq<char>, h: nat)
    requires Readable(m0, fds0, count, chains0) && g < count && h < count && h != g
    requires |chains0| == count && Readable(m, fds, count, chains0[g := chains0[g] + added]) && fds[h] == fds0[h]
    requires Separate(chains0[g := chains0[g] + added]) && o + |data| <= BLOCK_SIZE * |chains0[g] + added|
    requires Written(m0, m, chains0[g] + added, o, data, |data|)
    ensures FileAt(m, fds, count, chains0[g := chains0[g] + added], h) == FileAt(m0, fds0, count, chains0, h)
  {
    var chains := chains0[g := chains0[g] + added];
    assert chains[h] == chains0[h] && chains[g] == chains0[g] + added;
    ChainedSize(fds, count, chains, h);
    assert forall x :: x in chains[g] ==> x !in chains[h];
    WriteElsewhere(m0, m, chains[g], o, data, |data|, chains[h], fds[h].size);
  }

  /** A write replaces exactly bytes [o, o + |data|) of its file, which grows if need be; every other
      file is as it was. */
  lemma WroteFiles(m0: seq<char>, m: seq<char>, fat: seq<int>, fds0: seq<FileDescriptor>, count: nat, chains0: seq<seq<int>>,
                   g: nat, added: seq<int>, fds: seq<FileDescriptor>, o: nat, data: seq<char>)
    requires Readable(m0, fds0, count, chains0) && Directory(fds0, count) && g < count && |chains0| == count
    requires o <= fds0[g].size && Volume(fat, fds, count, chains0[g := chains0[g] + added])
    requires fds == fds0[g := fds0[g].(size := if o + |data| > fds0[g].size then o + |data| else fds0[g].size)]
    requires o + |data| <= BLOCK_SIZE * |chains0[g] + added| && Written(m0, m, chains0[g] + added, o, data, |data|)
    ensures Readable(m, fds, count, chains0[g := chains0[g] + added])
    ensures o <= |FileAt(m0, fds0, count, chains0, g)|
    ensures Files(m, fds, count, chains0[g := chains0[g] + added]) ==
            Files(m0, fds0, count, chains0)[fds0[g].name := Spliced(FileAt(m0, fds0, count, chains0, g), o, data)]
  {
    var chains, l := chains0[g := chains0[g] + added], chains0[g] + added;
    assert chains[g] == l;
    ChainedSize(fds0, count, chains0, g);
    ChainedSize(fds, count, chains, g);
    WriteEnds(m0, m, l, o, data, fds0[g].size);
    ContentsLonger(m0, chains0[g], added, fds0[g].size);
    assert FileAt(m, fds, count, chains, g) == Spliced(FileAt(m0, fds0, count, chains0, g), o, data);
    hide Volume, Written, Spliced;
    VolumeApart(fat, fds, count, chains);
    hide FileAt, Readable, Directory;
    forall h | 0 <= h < count && h != g ensures FileAt(m, fds, count, chains, h) == FileAt(m0, fds0, count, chains0, h) {
      OtherKept(m0, m, fds0, count, chains0, g, added, fds, o, data, h);
    }
    FilesOne(m0, fds0, count, chains0, m, fds, chains, g);
  }

  lemma VolumeApart(fat: seq<int>, fds: seq<FileDescriptor>, count: int, chains: seq<seq<int>>)
    requires Volume(fat, fds, count, chains)
    ensures Separate(chains) && Chained(fds, count, chains) && Directory(fds, count)
  {
  }
}
