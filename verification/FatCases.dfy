/** Inputs on which fs.cpp does not do what the names of its operations promise: each lemma is the
    failing side of a condition proved exact in FileSystem or FatGrow. */
module FatCases {
  import opened Chains
  import opened FatSpec
  import opened FatData
  import opened FatGrow
  import opened FileSystem
  import FS = FileSystem

  // ---------------------------------------------------------------- two files of one block, "a" and "b"

  function TwoFat(): (fat: seq<int>)
    ensures |fat| == NUM_BLOCKS
  {
    seq(NUM_BLOCKS, b => if b < 2 then END_OF_CHAIN else FREE_BLOCK)
  }

  function TwoFiles(): (fds: seq<FileDescriptor>)
    ensures |fds| == NUM_FILES
  {
    seq(NUM_FILES, f => if f == 0 then FileDescriptor("a", 0, 1) else if f == 1 then FileDescriptor("b", 1, 1) else EMPTY_DESCRIPTOR)
  }

  const TWO_CHAINS: seq<seq<int>> := [[0], [1]]

  lemma TwoVolume()
    ensures Volume(TwoFat(), TwoFiles(), 2, TWO_CHAINS)
  {
    assert TWO_CHAINS[0] == [0] && TWO_CHAINS[1] == [1];
    assert forall b :: b in TWO_CHAINS[0] <==> b == 0;
    assert forall b :: b in TWO_CHAINS[1] <==> b == 1;
  }

  /** The first slots are open on these files, at their start; the others are closed. */
  function Opens(files: seq<int>): (open: seq<OpenedFile>)
    requires |files| <= NUM_OPENED_FILES
    ensures |open| == NUM_OPENED_FILES
  {
    seq(NUM_OPENED_FILES, i => OpenedFile(if 0 <= i < |files| then files[i] else NO_OPENED_FILE, 0))
  }

  lemma {:induction false} OpensCount(files: seq<int>, n: nat)
    requires |files| <= NUM_OPENED_FILES && n <= NUM_OPENED_FILES && forall i :: 0 <= i < |files| ==> files[i] != NO_OPENED_FILE
    ensures CountOpen(Opens(files)[..n]) == if n < |files| then n else |files|
  {
    if n > 0 {
      OpensCount(files, n - 1);
      assert Opens(files)[..n][..n - 1] == Opens(files)[..n - 1];
    }
  }

  lemma OpensTable(files: seq<int>)
    requires |files| <= NUM_OPENED_FILES && forall i :: 0 <= i < |files| ==> 0 <= files[i] < 2
    ensures OpenTable(Opens(files), |files|, TwoFiles(), 2)
  {
    OpensCount(files, NUM_OPENED_FILES);
    assert Opens(files)[..NUM_OPENED_FILES] == Opens(files);
  }

  /** Slots 0 and 1 are both open on "a", and "a" is deleted: slot 0 is closed, slot 1 stays open and
      now denotes "b". The open table is still in order all the same. */
  lemma DeleteLeavesOpen()
    ensures Volume(TwoFat(), TwoFiles(), 2, TWO_CHAINS) && OpenTable(Opens([0, 0]), 2, TwoFiles(), 2)
    ensures var open, fds := AfterClose(Opens([0, 0]), 2, 0), TwoFiles()[1..] + [EMPTY_DESCRIPTOR];
            && open[0].idx == NO_OPENED_FILE && open[1] == Opens([0, 0])[1]
            && Denotes(Opens([0, 0]), TwoFiles(), 2, 1, "a") && Denotes(open, fds, 1, 1, "b")
            && OpenTable(open, CountOpen(open), fds, 1)
  {
    TwoVolume();
    OpensTable([0, 0]);
    var open0 := Opens([0, 0]);
    assert Hits(open0[..0], 0) == 0;
    HitsNext(open0, 0, 0);
    TableAfter(open0, TwoFiles(), 2, 0, TwoFiles()[1..] + [EMPTY_DESCRIPTOR]);
  }

  /** Slot 0 is open on "b", and "a" is deleted: the slot stays as it is, and denotes no file. */
  lemma DeleteSpoilsOpens()
    ensures Volume(TwoFat(), TwoFiles(), 2, TWO_CHAINS) && OpenTable(Opens([1]), 1, TwoFiles(), 2)
    ensures var open, fds := AfterClose(Opens([1]), 1, 0), TwoFiles()[1..] + [EMPTY_DESCRIPTOR];
            open == Opens([1]) && !OpenTable(open, CountOpen(open), fds, 1)
  {
    TwoVolume();
    OpensTable([1]);
    assert AfterClose(Opens([1]), 1, 0) == Opens([1]);
    assert Opens([1])[0].idx == 1;
  }

  /** "b" was opened first, so slot 0 is open on it. "a" is file 0: reading from "a" gives the byte of
      "b", and writing to "a" would go to "b". */
  lemma ReadsAnotherFile()
    ensures var m: seq<char> := seq(MEMORY_SIZE, i => if i < BLOCK_SIZE then 'x' else 'y');
            && Volume(TwoFat(), TwoFiles(), 2, TWO_CHAINS) && OpenTable(Opens([1]), 1, TwoFiles(), 2)
            && Find(TwoFiles(), 2, "a") == 0
            && var files := Files(m, TwoFiles(), 2, TWO_CHAINS);
            && files == map["a" := ['x'], "b" := ['y']]
            && DidRead(files[TwoFiles()[Opens([1])[0].idx].name], 1, ['y'], Opens([1]), 0, Opens([1])[0 := OpenedFile(1, 1)])
  {
    var m: seq<char> := seq(MEMORY_SIZE, i => if i < BLOCK_SIZE then 'x' else 'y');
    TwoVolume();
    OpensTable([1]);
    var fds := TwoFiles();
    FindIs(fds, 2, 0);
    FindIs(fds, 2, 1);
    FilesLookup(m, fds, 2, TWO_CHAINS);
    forall name ensures name in Names(fds, 2) <==> name == "a" || name == "b" {}
    assert FileAt(m, fds, 2, TWO_CHAINS, 0) == ['x'];
    assert FileAt(m, fds, 2, TWO_CHAINS, 1) == ['y'];
    assert Files(m, fds, 2, TWO_CHAINS) == map["a" := ['x'], "b" := ['y']];
  }

  // ---------------------------------------------------------------- one file of two blocks

  function OneFat(): (fat: seq<int>)
    ensures |fat| == NUM_BLOCKS
  {
    seq(NUM_BLOCKS, b => if b == 0 then 1 else if b == 1 then END_OF_CHAIN else FREE_BLOCK)
  }

  function OneFile(): (fds: seq<FileDescriptor>)
    ensures |fds| == NUM_FILES
  {
    seq(NUM_FILES, f => if f == 0 then FileDescriptor("a", 0, 2 * BLOCK_SIZE) else EMPTY_DESCRIPTOR)
  }

  lemma {:induction false} OneCount(n: nat)
    requires n <= NUM_BLOCKS
    ensures CountFree(OneFat()[..n]) == if n < 2 then 0 else n - 2
  {
    if n > 0 {
      OneCount(n - 1);
      assert OneFat()[..n][..n - 1] == OneFat()[..n - 1];
    }
  }

  lemma OneVolume()
    ensures Volume(OneFat(), OneFile(), 1, [[0, 1]]) && CountFree(OneFat()) == NUM_BLOCKS - 2
  {
    var chains := [[0, 1]];
    assert chains[0] == [0, 1];
    assert forall b :: b in chains[0] <==> b == 0 || b == 1;
    OneCount(NUM_BLOCKS);
    assert OneFat()[..NUM_BLOCKS] == OneFat();
  }

  /** A file on blocks 0 and 1, and a write that would need one block more than there are: all the free
      blocks are added, then the rollback ends the chain at block 0. Block 1 stays in use, linked to
      block 2, which is free again; it is on no chain of any reading of the table. */
  lemma RollbackOrphans()
    ensures var chains, added := [[0, 1]], seq(NUM_BLOCKS - 2, i => i + 2);
            && Volume(OneFat(), OneFile(), 1, chains)
            && CountFree(OneFat()) < Blocks(MEMORY_SIZE + 1) - Blocks(OneFile()[0].size)
            && LastOf(chains[0]) == 1
            && var fat := RolledBack(OneFat(), chains[0], added);
            && fat[0] == END_OF_CHAIN && fat[1] == 2 && fat[2] == FREE_BLOCK
            && !InOrder(fat, OneFile()[0 := OneFile()[0].(size := BLOCK_SIZE)], 1)
  {
    OneVolume();
    var chains, added := [[0, 1]], seq(NUM_BLOCKS - 2, i => i + 2);
    assert IsReading(OneFat(), OneFile(), 1, chains);
    RollbackExactly(OneFat(), OneFile(), 1, chains, 0, added, OneFile()[0 := OneFile()[0].(size := BLOCK_SIZE)]);
  }

  // ---------------------------------------------------------------- from an empty file system

  lemma {:induction false} AllFree(n: nat)
    ensures CountFree(seq(n, _ => FREE_BLOCK)) == n
  {
    if n > 0 {
      AllFree(n - 1);
      assert seq(n, _ => FREE_BLOCK)[..n - 1] == seq(n - 1, _ => FREE_BLOCK);
    }
  }

  lemma FindFirst(fds: seq<FileDescriptor>, name: string)
    requires |fds| > 0 && fds[0].name == name
    ensures Find(fds, 1, name) == 0
  {
  }

  /** create accepts a negative size, and the volume is out of order. */
  method CreateNegative() returns (fs: FS.FileSystem, r: CreateStatus)
    ensures r == FILE_CREATE_SUCCESS && !InOrder(fs.fat[..], fs.fd_table[..], fs.file_count)
  {
    fs := new FS.FileSystem();
    AllFree(NUM_BLOCKS);
    r := fs.Create("a", -1);
  }

  lemma ReadToEnd(c: seq<char>, buffer: seq<char>, open: seq<OpenedFile>, open': seq<OpenedFile>)
    requires |open| > 0 && open[0] == OpenedFile(0, 0) && DidRead(c, |c|, buffer, open, 0, open')
    ensures |open'| == |open| && open'[0] == OpenedFile(0, |c|)
  {
  }

  /** A file of one full block, and slot 0 open on it. */
  ghost predicate OneFullBlock(fs: FS.FileSystem)
    reads fs, fs.memory, fs.fat, fs.fd_table, fs.open_file_fd_table
  {
    && fs.Valid() && fs.OpensValid() && "a" in fs.Contents() && |fs.Contents()["a"]| == BLOCK_SIZE
    && fs.file_count == 1 && fs.fd_table[0].name == "a" && fs.fd_table[0].size == BLOCK_SIZE
    && Find(fs.fd_table[..], 1, "a") == 0
    && |fs.chains| == 1 && |fs.chains[0]| == 1 && fs.open_file_fd_table[0] == OpenedFile(0, 0)
  }

  method MakeFullBlock() returns (fs: FS.FileSystem)
    ensures OneFullBlock(fs) && fresh(fs) && fresh(fs.memory) && fresh(fs.fat) && fresh(fs.fd_table) && fresh(fs.open_file_fd_table)
  {
    hide FatSpec.CountFree, FatData.Volume, FatData.Files, OpenTable, InOrder;
    fs := new FS.FileSystem();
    AllFree(NUM_BLOCKS);
    var r := fs.Create("a", BLOCK_SIZE);
    FindFirst(fs.fd_table[..], "a");
    var o, past, slot := fs.Open("a");
    assert fs.open_file_fd_table[0] == fs.open_file_fd_table[..][0];
  }

  /** A file of one full block is read to its end; a write of no bytes there is said to exceed it. */
  method WriteNothing() returns (fs: FS.FileSystem, r: WriteStatus)
    ensures r == FILE_WRITE_EXCEEDS_FILE_SIZE
  {
    hide FatSpec.CountFree, FatData.Volume, FatData.Files, OpenTable, InOrder, DidRead, Spliced, Find;
    fs := MakeFullBlock();
    ghost var c, open0, fds := fs.Contents()["a"], fs.open_file_fd_table[..], fs.fd_table[..];
    var read, past, buffer := fs.Read("a", BLOCK_SIZE);
    assert fs.fd_table[..] == fds;
    ReadToEnd(c, buffer, open0, fs.open_file_fd_table[..]);
    assert fs.open_file_fd_table[..][0] == OpenedFile(0, BLOCK_SIZE);
    r, past := fs.Write("a", [], 0);
  }
}
