/** What the chains hold: files as byte strings, and the directory that names them. */
module FatData {
  import opened Chains
  import opened FatSpec

  // ---------------------------------------------------------------- a file's bytes

  ghost predicate InVolume(l: seq<int>) {
    forall i :: 0 <= i < |l| ==> 0 <= l[i] < NUM_BLOCKS
  }

  /** Where byte j of a chain is in memory. */
  function Addr(l: seq<int>, j: int): (a: int)
    requires 0 <= j < BLOCK_SIZE * |l|
  {
    l[j / BLOCK_SIZE] * BLOCK_SIZE + j % BLOCK_SIZE
  }

  lemma AddrInMemory(l: seq<int>, j: int)
    requires InVolume(l) && 0 <= j < BLOCK_SIZE * |l|
    ensures 0 <= Addr(l, j) < MEMORY_SIZE
  {
  }

  lemma AddrInjective(l: seq<int>, j: int, k: int)
    requires Distinct(l) && InVolume(l) && 0 <= j < BLOCK_SIZE * |l| && 0 <= k < BLOCK_SIZE * |l| && j != k
    ensures Addr(l, j) != Addr(l, k)
  {
  }

  lemma AddrApart(l: seq<int>, m: seq<int>, j: int, k: int)
    requires InVolume(l) && InVolume(m) && 0 <= j < BLOCK_SIZE * |l| && 0 <= k < BLOCK_SIZE * |m|
    requires forall x :: x in l ==> x !in m
    ensures Addr(l, j) != Addr(m, k)
  {
    assert l[j / BLOCK_SIZE] in l && m[k / BLOCK_SIZE] in m;
  }

  /** The bytes of one block lie side by side. */
  lemma AddrNext(l: seq<int>, j: int, i: int)
    requires InVolume(l) && 0 <= j && 0 <= i && j % BLOCK_SIZE + i < BLOCK_SIZE && j < BLOCK_SIZE * |l|
    ensures j + i < BLOCK_SIZE * |l| && Addr(l, j + i) == Addr(l, j) + i
  {
  }

  /** The first size bytes of a chain. */
  ghost function Contents(m: seq<char>, l: seq<int>, size: int): (c: seq<char>)
    requires |m| == MEMORY_SIZE && InVolume(l) && 0 <= size <= BLOCK_SIZE * |l|
    ensures |c| == size && forall j :: 0 <= j < size ==> 0 <= Addr(l, j) < MEMORY_SIZE && c[j] == m[Addr(l, j)]
  {
    seq(size, j requires 0 <= j < size => AddrInMemory(l, j); m[Addr(l, j)])
  }

  lemma ContentsLonger(m: seq<char>, l: seq<int>, more: seq<int>, size: int)
    requires |m| == MEMORY_SIZE && InVolume(l) && InVolume(l + more) && 0 <= size <= BLOCK_SIZE * |l|
    ensures Contents(m, l + more, size) == Contents(m, l, size)
  {
  }

  // ---------------------------------------------------------------- writing

  ghost predicate Touched(l: seq<int>, from: int, to: int, a: int)
    requires 0 <= from && to <= BLOCK_SIZE * |l|
  {
    exists j :: from <= j < to && Addr(l, j) == a
  }

  /** Memory m is m0 with done bytes of the data written to the chain from byte o on. */
  ghost predicate Written(m0: seq<char>, m: seq<char>, l: seq<int>, o: nat, data: seq<char>, done: nat)
    requires done <= |data| && o + done <= BLOCK_SIZE * |l|
  {
    && |m0| == |m| == MEMORY_SIZE && InVolume(l) && Distinct(l)
    && (forall j :: o <= j < o + done ==> 0 <= Addr(l, j) < MEMORY_SIZE && m[Addr(l, j)] == data[j - o])
    && (forall a :: 0 <= a < MEMORY_SIZE && !Touched(l, o, o + done, a) ==> m[a] == m0[a])
  }

  lemma WriteStarts(m: seq<char>, l: seq<int>, o: nat, data: seq<char>)
    requires |m| == MEMORY_SIZE && InVolume(l) && Distinct(l) && o <= BLOCK_SIZE * |l|
    ensures Written(m, m, l, o, data, 0)
  {
  }

  function Copied(m: seq<char>, a: nat, bytes: seq<char>): seq<char>
    requires a + |bytes| <= |m|
  {
    m[..a] + bytes + m[a + |bytes|..]
  }

  lemma StepAddrs(l: seq<int>, s: nat, k: nat)
    requires InVolume(l) && s < BLOCK_SIZE * |l| && s % BLOCK_SIZE + k <= BLOCK_SIZE
    ensures s + k <= BLOCK_SIZE * |l| && 0 <= Addr(l, s) && Addr(l, s) + k <= MEMORY_SIZE
    ensures forall j :: s <= j < s + k ==> Addr(l, j) == Addr(l, s) + (j - s)
  {
  }

  lemma StepMisses(l: seq<int>, s: nat, k: nat, j: nat)
    requires InVolume(l) && Distinct(l) && s < BLOCK_SIZE * |l| && s % BLOCK_SIZE + k <= BLOCK_SIZE && j < s
    ensures Addr(l, j) < Addr(l, s) || Addr(l, j) >= Addr(l, s) + k
  {
  }

  lemma StepTouches(l: seq<int>, o: nat, s: nat, k: nat, b: int)
    requires InVolume(l) && o <= s < BLOCK_SIZE * |l| && s % BLOCK_SIZE + k <= BLOCK_SIZE && s + k <= BLOCK_SIZE * |l|
    ensures Addr(l, s) <= b < Addr(l, s) + k || Touched(l, o, s, b) ==> Touched(l, o, s + k, b)
  {
    if Addr(l, s) <= b < Addr(l, s) + k {
      AddrNext(l, s, b - Addr(l, s));
      assert Addr(l, s + (b - Addr(l, s))) == b;
    }
  }

  /** One memcpy within a block. */
  lemma WriteStep(m0: seq<char>, m: seq<char>, l: seq<int>, o: nat, data: seq<char>, done: nat, k: nat)
    requires done + k <= |data| && o + done < BLOCK_SIZE * |l| && Written(m0, m, l, o, data, done)
    requires (o + done) % BLOCK_SIZE + k <= BLOCK_SIZE
    ensures o + done + k <= BLOCK_SIZE * |l|
    ensures 0 <= Addr(l, o + done) && Addr(l, o + done) + k <= MEMORY_SIZE
    ensures Written(m0, Copied(m, Addr(l, o + done), data[done..done + k]), l, o, data, done + k)
  {
    var s, a := o + done, Addr(l, o + done);
    StepAddrs(l, s, k);
    var m' := Copied(m, a, data[done..done + k]);
    hide Touched;
    forall j | o <= j < o + done + k ensures 0 <= Addr(l, j) < MEMORY_SIZE && m'[Addr(l, j)] == data[j - o] {
      AddrInMemory(l, j);
      if j < s { StepMisses(l, s, k, j); }
    }
    forall b | 0 <= b < MEMORY_SIZE && !Touched(l, o, s + k, b) ensures m'[b] == m0[b] { StepTouches(l, o, s, k, b); }
  }

  /** c with the data in place of the bytes from o on, and longer if need be. */
  function Spliced(c: seq<char>, o: nat, data: seq<char>): (r: seq<char>)
    requires o <= |c|
    ensures |r| == if o + |data| > |c| then o + |data| else |c|
    ensures forall j :: 0 <= j < |r| ==> r[j] == if o <= j < o + |data| then data[j - o] else c[j]
  {
    c[..o] + data + if o + |data| < |c| then c[o + |data|..] else []
  }

  /** A write replaces exactly its own range of the file. */
  lemma WriteEnds(m0: seq<char>, m: seq<char>, l: seq<int>, o: nat, data: seq<char>, size: nat)
    requires o <= size <= BLOCK_SIZE * |l| && o + |data| <= BLOCK_SIZE * |l| && Written(m0, m, l, o, data, |data|)
    ensures Contents(m, l, if o + |data| > size then o + |data| else size) == Spliced(Contents(m0, l, size), o, data)
  {
  }

  /** And no other file. */
  lemma WriteElsewhere(m0: seq<char>, m: seq<char>, l: seq<int>, o: nat, data: seq<char>, done: nat, other: seq<int>, size: nat)
    requires done <= |data| && o + done <= BLOCK_SIZE * |l| && Written(m0, m, l, o, data, done)
    requires InVolume(other) && size <= BLOCK_SIZE * |other| && forall x :: x in l ==> x !in other
    ensures Contents(m, other, size) == Contents(m0, other, size)
  {
    forall j | 0 <= j < size ensures Contents(m, other, size)[j] == Contents(m0, other, size)[j] {
      forall k | o <= k < o + done ensures Addr(l, k) != Addr(other, j) { AddrApart(l, other, k, j); }
      assert !Touched(l, o, o + done, Addr(other, j));
    }
  }

  // ---------------------------------------------------------------- the directory

  ghost predicate ValidName(name: string) {
    MIN_NAME_SIZE <= |name| <= MAX_NAME_SIZE
  }

  /** Live descriptors come first, under different names; the rest are empty. */
  ghost predicate Directory(fds: seq<FileDescriptor>, count: int) {
    && |fds| == NUM_FILES && 0 <= count <= NUM_FILES
    && (forall f :: 0 <= f < count ==> ValidName(fds[f].name))
    && (forall f, g :: 0 <= f < g < count ==> fds[f].name != fds[g].name)
    && (forall f :: count <= f < NUM_FILES ==> fds[f] == EMPTY_DESCRIPTOR)
  }

  /** Each live file has a chain of its own, long enough for its size and at most one block longer. */
  ghost predicate Chained(fds: seq<FileDescriptor>, count: int, chains: seq<seq<int>>) {
    && |chains| == count <= |fds|
    && forall f :: 0 <= f < count ==>
         && chains[f] != [] && fds[f].starting_block == chains[f][0] && fds[f].size >= 0
         && Blocks(fds[f].size) <= |chains[f]| <= Blocks(fds[f].size) + 1 && InVolume(chains[f])
  }

  ghost predicate Volume(fat: seq<int>, fds: seq<FileDescriptor>, count: int, chains: seq<seq<int>>) {
    Directory(fds, count) && Chained(fds, count, chains) && Partition(fat, chains)
  }

  /** The index of a name, or count. */
  function Find(fds: seq<FileDescriptor>, count: nat, name: string): (f: nat)
    requires count <= |fds|
    ensures f <= count && (f < count ==> fds[f].name == name)
    ensures forall g :: 0 <= g < f ==> fds[g].name != name
  {
    if count == 0 then 0
    else
      var f := Find(fds, count - 1, name);
      if f < count - 1 then f else if fds[count - 1].name == name then count - 1 else count
  }

  function Names(fds: seq<FileDescriptor>, count: nat): (names: set<string>)
    requires count <= |fds|
    ensures forall name :: name in names <==> Find(fds, count, name) < count
  {
    if count == 0 then {} else Names(fds, count - 1) + {fds[count - 1].name}
  }

  ghost predicate Readable(m: seq<char>, fds: seq<FileDescriptor>, count: nat, chains: seq<seq<int>>) {
    |m| == MEMORY_SIZE && Chained(fds, count, chains)
  }

  lemma ChainedSize(fds: seq<FileDescriptor>, count: nat, chains: seq<seq<int>>, f: nat)
    requires Chained(fds, count, chains) && f < count
    ensures InVolume(chains[f]) && 0 <= fds[f].size <= BLOCK_SIZE * |chains[f]|
  {
  }

  ghost function FileAt(m: seq<char>, fds: seq<FileDescriptor>, count: nat, chains: seq<seq<int>>, f: nat): seq<char>
    requires Readable(m, fds, count, chains) && f < count
  {
    ChainedSize(fds, count, chains, f);
    Contents(m, chains[f], fds[f].size)
  }

  /** The file system: a byte string under every name. */
  ghost function Files(m: seq<char>, fds: seq<FileDescriptor>, count: nat, chains: seq<seq<int>>): map<string, seq<char>>
    requires Readable(m, fds, count, chains)
  {
    map name | name in Names(fds, count) :: FileAt(m, fds, count, chains, Find(fds, count, name))
  }

  lemma FindIs(fds: seq<FileDescriptor>, count: nat, f: nat)
    requires Directory(fds, count) && f < count
    ensures Find(fds, count, fds[f].name) == f
  {
  }

  lemma {:induction false} FindSame(fds: seq<FileDescriptor>, fds': seq<FileDescriptor>, count: nat, name: string)
    requires count <= |fds| && count <= |fds'| && forall g :: 0 <= g < count ==> fds'[g].name == fds[g].name
    ensures Find(fds', count, name) == Find(fds, count, name)
  {
  }

  lemma NamesSame(fds: seq<FileDescriptor>, fds': seq<FileDescriptor>, count: nat)
    requires count <= |fds| && count <= |fds'| && forall g :: 0 <= g < count ==> fds'[g].name == fds[g].name
    ensures Names(fds', count) == Names(fds, count)
  {
  }

  /** One file's bytes change. */
  lemma FilesOne(m: seq<char>, fds: seq<FileDescriptor>, count: nat, chains: seq<seq<int>>,
                 m': seq<char>, fds': seq<FileDescriptor>, chains': seq<seq<int>>, f: nat)
    requires Readable(m, fds, count, chains) && Readable(m', fds', count, chains') && Directory(fds, count) && f < count
    requires |fds'| == |fds| && forall g :: 0 <= g < count ==> fds'[g].name == fds[g].name
    requires forall g :: 0 <= g < count && g != f ==> FileAt(m', fds', count, chains', g) == FileAt(m, fds, count, chains, g)
    ensures Files(m', fds', count, chains') == Files(m, fds, count, chains)[fds[f].name := FileAt(m', fds', count, chains', f)]
  {
    hide FileAt, Readable;
    NamesSame(fds, fds', count);
    FindIs(fds, count, f);
    forall name | name in Names(fds, count) ensures Find(fds', count, name) == Find(fds, count, name) { FindSame(fds, fds', count, name); }
  }

  lemma {:induction false} FindMore(fds: seq<FileDescriptor>, fds': seq<FileDescriptor>, count: nat, name: string)
    requires count < |fds| == |fds'| && forall g :: 0 <= g < count ==> fds'[g].name == fds[g].name
    ensures Find(fds', count + 1, name) ==
            if Find(fds, count, name) < count then Find(fds, count, name)
            else if fds'[count].name == name then count else count + 1
  {
  }

  /** A file more. */
  lemma FilesAdded(m: seq<char>, fds: seq<FileDescriptor>, count: nat, chains: seq<seq<int>>, fd: FileDescriptor, l: seq<int>)
    requires Readable(m, fds, count, chains) && count < |fds| && Find(fds, count, fd.name) == count
    requires Readable(m, fds[count := fd], count + 1, chains + [l])
    ensures Files(m, fds[count := fd], count + 1, chains + [l]) ==
            Files(m, fds, count, chains)[fd.name := FileAt(m, fds[count := fd], count + 1, chains + [l], count)]
  {
    var fds', chains' := fds[count := fd], chains + [l];
    forall g | 0 <= g < count ensures FileAt(m, fds', count + 1, chains', g) == FileAt(m, fds, count, chains, g) {}
    hide FileAt, Readable;
    forall name ensures name in Names(fds', count + 1) <==> name in Names(fds, count) || name == fd.name {
      FindMore(fds, fds', count, name);
    }
    forall name | name in Names(fds, count)
      ensures Find(fds', count + 1, name) == Find(fds, count, name)
    {
      FindMore(fds, fds', count, name);
    }
    FindMore(fds, fds', count, fd.name);
  }

  lemma {:induction false} FindShifted(fds: seq<FileDescriptor>, fds': seq<FileDescriptor>, count: nat, name: string)
    requires 0 < count <= |fds| == |fds'| && (forall g :: 0 <= g < count - 1 ==> fds'[g] == fds[g + 1]) && name != fds[0].name
    ensures Find(fds', count - 1, name) == Find(fds, count, name) - 1
  {
    if count > 1 { FindShifted(fds, fds', count - 1, name); } else { assert Find(fds, 0, name) == 0; }
  }

  /** The first descriptor is gone, the others have moved up. */
  ghost predicate Shifted(fds: seq<FileDescriptor>, chains: seq<seq<int>>, count: nat, fds': seq<FileDescriptor>, chains': seq<seq<int>>) {
    && 0 < count <= |fds| == |fds'| && |chains| == count && chains' == chains[1..]
    && forall g :: 0 <= g < count - 1 ==> fds'[g] == fds[g + 1]
  }

  lemma FileShifted(m: seq<char>, fds: seq<FileDescriptor>, count: nat, chains: seq<seq<int>>,
                    fds': seq<FileDescriptor>, chains': seq<seq<int>>, g: nat)
    requires Readable(m, fds, count, chains) && Shifted(fds, chains, count, fds', chains') && 1 <= g < count
    requires Readable(m, fds', count - 1, chains')
    ensures FileAt(m, fds', count - 1, chains', g - 1) == FileAt(m, fds, count, chains, g)
  {
  }

  lemma NamesShifted(fds: seq<FileDescriptor>, fds': seq<FileDescriptor>, count: nat)
    requires Directory(fds, count) && 0 < count && |fds'| == |fds| && forall g :: 0 <= g < count - 1 ==> fds'[g] == fds[g + 1]
    ensures Names(fds', count - 1) == Names(fds, count) - {fds[0].name}
  {
    forall name ensures name in Names(fds', count - 1) <==> name in Names(fds, count) && name != fds[0].name {
      if name == fds[0].name {
        assert Find(fds', count - 1, name) == count - 1;
      } else {
        FindShifted(fds, fds', count, name);
      }
    }
  }

  lemma FilesLookup(m: seq<char>, fds: seq<FileDescriptor>, count: nat, chains: seq<seq<int>>)
    requires Readable(m, fds, count, chains)
    ensures Files(m, fds, count, chains).Keys == Names(fds, count)
    ensures forall name :: name in Names(fds, count) ==>
              Files(m, fds, count, chains)[name] == FileAt(m, fds, count, chains, Find(fds, count, name))
  {
  }

  lemma MapMinus<K, V>(a: map<K, V>, b: map<K, V>, x: K)
    requires b.Keys == a.Keys - {x} && forall k :: k in b ==> b[k] == a[k]
    ensures b == a - {x}
  {
  }

  lemma FindPair(fds: seq<FileDescriptor>, chains: seq<seq<int>>, count: nat, fds': seq<FileDescriptor>, chains': seq<seq<int>>, name: string)
    requires Shifted(fds, chains, count, fds', chains')
    requires 0 < count <= |fds| && name != fds[0].name && name in Names(fds, count)
    ensures count - 1 <= |fds'| && 1 <= Find(fds, count, name) < count && Find(fds', count - 1, name) == Find(fds, count, name) - 1
  {
    FindShifted(fds, fds', count, name);
  }

  lemma FileOfShifted(m: seq<char>, fds: seq<FileDescriptor>, count: nat, chains: seq<seq<int>>,
                      fds': seq<FileDescriptor>, chains': seq<seq<int>>, name: string)
    requires Readable(m, fds, count, chains) && Shifted(fds, chains, count, fds', chains')
    requires 0 < count <= |fds| && Readable(m, fds', count - 1, chains') && name in Files(m, fds', count - 1, chains')
    requires name in Files(m, fds, count, chains) && name != fds[0].name
    ensures Files(m, fds', count - 1, chains')[name] == Files(m, fds, count, chains)[name]
  {
    hide *;
    FilesLookup(m, fds, count, chains);
    FilesLookup(m, fds', count - 1, chains');
    FindPair(fds, chains, count, fds', chains', name);
    FileShifted(m, fds, count, chains, fds', chains', Find(fds, count, name));
  }

  lemma FilesShifted(m: seq<char>, fds: seq<FileDescriptor>, count: nat, chains: seq<seq<int>>,
                     fds': seq<FileDescriptor>, chains': seq<seq<int>>)
    requires Readable(m, fds, count, chains) && Directory(fds, count) && Shifted(fds, chains, count, fds', chains')
    requires 0 < count <= |fds| && Readable(m, fds', count - 1, chains')
    ensures Files(m, fds', count - 1, chains') == Files(m, fds, count, chains) - {fds[0].name}
  {
    NamesShifted(fds, fds', count);
    FilesLookup(m, fds, count, chains);
    FilesLookup(m, fds', count - 1, chains');
    hide *;
    var before, after := Files(m, fds, count, chains), Files(m, fds', count - 1, chains');
    forall name | name in after ensures after[name] == before[name] {
      FileOfShifted(m, fds, count, chains, fds', chains', name);
    }
    MapMinus(before, after, fds[0].name);
  }

  // ---------------------------------------------------------------- when the volume is in order

  /** The allocation table can be read as one chain for each live descriptor, and nothing else. */
  ghost predicate InOrder(fat: seq<int>, fds: seq<FileDescriptor>, count: int) {
    exists chains: seq<seq<int>> :: IsReading(fat, fds, count, chains)
  }

  ghost predicate IsReading(fat: seq<int>, fds: seq<FileDescriptor>, count: int, chains: seq<seq<int>>) {
    && Partition(fat, chains) && |chains| == count <= |fds|
    && forall f :: 0 <= f < count ==> chains[f] != [] && chains[f][0] == fds[f].starting_block
  }

  /** A descriptor whose first block is free spoils it. */
  lemma FreeStart(fat: seq<int>, fds: seq<FileDescriptor>, count: int, f: int)
    requires 0 <= f < count <= |fds| && 0 <= fds[f].starting_block < |fat| && fat[fds[f].starting_block] == FREE_BLOCK
    ensures !InOrder(fat, fds, count)
  {
  }

  /** Deleting the file at index f moves all descriptors up by one: the table is in order exactly when
      it was the first. */
  lemma DeleteExactly(fat: seq<int>, fds: seq<FileDescriptor>, count: nat, chains: seq<seq<int>>, f: nat, fat': seq<int>, fds': seq<FileDescriptor>)
    requires Volume(fat, fds, count, chains) && f < count < NUM_FILES && |fat'| == |fat| && |fds'| == |fds|
    requires forall b :: 0 <= b < |fat| ==> fat'[b] == if b in chains[f] then FREE_BLOCK else fat[b]
    requires forall g :: 0 <= g < count ==> fds'[g] == fds[g + 1]
    ensures InOrder(fat', fds', count - 1) <==> f == 0
  {
    ChainFreed(fat, chains, f, fat');
    if f == 0 {
      assert WithoutChain(chains, 0) == chains[1..];
      assert IsReading(fat', fds', count - 1, chains[1..]);
    } else {
      assert chains[f][0] in chains[f];
      FreeStart(fat', fds', count - 1, f - 1);
    }
  }
}
