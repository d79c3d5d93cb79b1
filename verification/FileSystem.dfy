/** The file system of file-system/fs.cpp and misc.cpp: its arrays, updated in place, hold a byte
    string under every name. `overrun` says that the code reads past the end of one of its tables;
    what it does then is undefined, and nothing is said of the state. Saving to disk is left out. */
module FileSystem {
  import opened Chains
  import opened FatSpec
  import opened FatData
  import opened FatGrow

  datatype CreateStatus = FILE_CREATE_SUCCESS | FILE_CREATE_INVALID_NAME | FILE_CREATE_TOO_MANY_FILES
                        | FILE_CREATE_DUPLICATE_FILE | FILE_CREATE_NO_SPACE
  datatype OpenStatus = FILE_OPEN_SUCCESS | FILE_OPEN_TOO_MANY_FILES_OPENED | FILE_OPEN_DOESNT_EXIST
                      | FILE_OPEN_NO_SPACE_FOR_OPEN_FILES
  datatype CloseStatus = FILE_CLOSE_SUCCESS | FILE_CLOSE_INVALID_INDEX | FILE_CLOSE_NOT_OPENED
  datatype ReadStatus = FILE_READ_SUCCESS | FILE_READ_INVALID_INDEX | FILE_READ_NOT_OPEN | FILE_READ_EOF
  datatype WriteStatus = FILE_WRITE_SUCCESS | FILE_WRITE_INVALID_INDEX | FILE_WRITE_NOT_OPENED
                       | FILE_WRITE_EXCEEDS_FILE_SIZE | FILE_WRITE_NO_SPACE
  datatype DeleteStatus = FILE_DELETE_SUCCESS | FILE_DELETE_DOESNT_EXIST

  datatype TransactionLog = TransactionLog(file_idx: int, last_valid_block: int, first_new_block: int)

  // ---------------------------------------------------------------- the table of open files

  function CountOpen(open: seq<OpenedFile>): nat {
    if open == [] then 0 else CountOpen(open[..|open| - 1]) + if open[|open| - 1].idx != NO_OPENED_FILE then 1 else 0
  }

  lemma {:induction false} CountOpenUpdate(open: seq<OpenedFile>, i: nat, e: OpenedFile)
    requires i < |open|
    ensures CountOpen(open[i := e]) == CountOpen(open)
            - (if open[i].idx != NO_OPENED_FILE then 1 else 0) + (if e.idx != NO_OPENED_FILE then 1 else 0)
  {
    var m := |open| - 1;
    if i < m {
      CountOpenUpdate(open[..m], i, e);
      assert open[i := e][..m] == open[..m][i := e];
    } else {
      assert open[i := e][..m] == open[..m];
    }
  }

  /** How many slots are open on file f. */
  function Hits(open: seq<OpenedFile>, f: int): nat {
    if open == [] then 0 else Hits(open[..|open| - 1], f) + if open[|open| - 1].idx == f then 1 else 0
  }

  /** The slots delete_ closes when `used` are open. Its loop counts up while its bound, the number of
      open slots, counts down: slot i must come before the bound as the closed slots before i left it. */
  predicate IsClosed(open: seq<OpenedFile>, used: int, f: int, i: nat)
    requires i < |open|
  {
    open[i].idx == f && i + Hits(open[..i], f) < used
  }

  function AfterClose(open: seq<OpenedFile>, used: int, f: int): seq<OpenedFile> {
    seq(|open|, i requires 0 <= i < |open| => if IsClosed(open, used, f, i) then OpenedFile(NO_OPENED_FILE, 0) else open[i])
  }

  lemma HitsNext(open: seq<OpenedFile>, f: int, i: nat)
    requires i < |open|
    ensures Hits(open[..i + 1], f) == Hits(open[..i], f) + if open[i].idx == f then 1 else 0
  {
    assert open[..i + 1][..i] == open[..i];
  }

  lemma {:induction false} HitsMonotone(open: seq<OpenedFile>, f: int, i: nat, j: nat)
    requires i <= j <= |open|
    ensures Hits(open[..i], f) <= Hits(open[..j], f)
    decreases j
  {
    if i < j {
      HitsNext(open, f, j - 1);
      HitsMonotone(open, f, i, j - 1);
    }
  }

  lemma {:induction false} AllHits(open: seq<OpenedFile>, f: int)
    requires forall i :: 0 <= i < |open| ==> open[i].idx == NO_OPENED_FILE || open[i].idx == f
    requires f != NO_OPENED_FILE
    ensures Hits(open, f) == CountOpen(open)
  {
    if open != [] { AllHits(open[..|open| - 1], f); }
  }

  lemma {:induction false} LastOpen(open: seq<OpenedFile>) returns (i: nat)
    requires CountOpen(open) > 0
    ensures i < |open| && open[i].idx != NO_OPENED_FILE && CountOpen(open[..i]) + 1 == CountOpen(open)
  {
    i := |open| - 1;
    if open[i].idx == NO_OPENED_FILE {
      var rest := open[..i];
      i := LastOpen(rest);
      assert rest[..i] == open[..i];
    }
  }

  /** delete_ leaves no slot open exactly when none was, or slot 0 alone, on that file. */
  lemma AllClosedExactly(open: seq<OpenedFile>, f: int)
    requires f != NO_OPENED_FILE && |open| > 0
    ensures (forall i :: 0 <= i < |open| ==> AfterClose(open, CountOpen(open), f)[i].idx == NO_OPENED_FILE) <==>
              CountOpen(open) == 0 || (CountOpen(open) == 1 && open[0].idx == f)
  {
    var used, open' := CountOpen(open), AfterClose(open, CountOpen(open), f);
    if used > 0 && forall i :: 0 <= i < |open| ==> open'[i].idx == NO_OPENED_FILE {
      forall i | 0 <= i < |open| ensures open[i].idx == NO_OPENED_FILE || (open[i].idx == f && IsClosed(open, used, f, i)) {
        assert open'[i].idx == NO_OPENED_FILE;
      }
      var i := LastOpen(open);
      AllHits(open[..i], f);
    }
    if used == 0 { NoneCounted(open); }
    if used == 1 && open[0].idx == f {
      CountOpenUpdate(open, 0, OpenedFile(NO_OPENED_FILE, 0));
      NoneCounted(open[0 := OpenedFile(NO_OPENED_FILE, 0)]);
      assert forall i :: 1 <= i < |open| ==> open[0 := OpenedFile(NO_OPENED_FILE, 0)][i] == open[i];
    }
  }

  lemma {:induction false} HitsAll(open: seq<OpenedFile>, f: int, i: nat)
    requires i <= |open| && f != NO_OPENED_FILE && forall j :: 0 <= j < i ==> open[j].idx == f
    ensures Hits(open[..i], f) == i && CountOpen(open[..i]) == i
  {
    if i > 0 {
      HitsAll(open, f, i - 1);
      assert open[..i][..i - 1] == open[..i - 1];
    }
  }

  lemma {:induction false} CountFirst(open: seq<OpenedFile>, n: nat)
    requires n <= |open| && forall j :: n <= j < |open| ==> open[j].idx == NO_OPENED_FILE
    ensures CountOpen(open) == CountOpen(open[..n])
    decreases |open|
  {
    if n < |open| {
      var rest := open[..|open| - 1];
      CountFirst(rest, n);
      assert rest[..n] == open[..n];
    } else {
      assert open[..n] == open;
    }
  }

  /** With the first n slots open on the file and no other slot open, delete_ closes the first half of
      them, rounded up. */
  lemma HalfIsClosed(open: seq<OpenedFile>, f: int, n: nat)
    requires n <= |open| && f != NO_OPENED_FILE && (forall j :: 0 <= j < n ==> open[j].idx == f)
    requires forall j :: n <= j < |open| ==> open[j].idx == NO_OPENED_FILE
    ensures CountOpen(open) == n
    ensures forall i :: 0 <= i < |open| ==>
              AfterClose(open, CountOpen(open), f)[i] ==
              if i < n && 2 * i < n then OpenedFile(NO_OPENED_FILE, 0) else open[i]
  {
    CountFirst(open, n);
    HitsAll(open, f, n);
    forall i | 0 <= i < n ensures Hits(open[..i], f) == i { HitsAll(open, f, i); }
  }

  lemma {:induction false} CountOpenBound(open: seq<OpenedFile>)
    ensures CountOpen(open) <= |open|
  {
    if open != [] { CountOpenBound(open[..|open| - 1]); }
  }

  /** Every slot in use names a live file, and its offset is within that file. */
  ghost predicate OpenTable(open: seq<OpenedFile>, used: int, fds: seq<FileDescriptor>, count: int) {
    && |open| == NUM_OPENED_FILES && used == CountOpen(open) && 0 <= count <= |fds|
    && forall i :: 0 <= i < |open| ==>
         open[i].idx == NO_OPENED_FILE || (0 <= open[i].idx < count && 0 <= open[i].offset <= fds[open[i].idx].size)
  }

  ghost predicate Denotes(open: seq<OpenedFile>, fds: seq<FileDescriptor>, count: int, i: int, name: string)
    requires 0 <= i < |open| && count <= |fds|
  {
    0 <= open[i].idx < count && fds[open[i].idx].name == name
  }

  // ---------------------------------------------------------------- create, step by step

  /** Blocks l are taken from the free ones and linked; the last leads to cur, which is free. */
  ghost predicate Building(fat0: seq<int>, fat: seq<int>, l: seq<int>, cur: int) {
    && |fat| == |fat0| && Segment(fat, l, cur) && Distinct(l)
    && (forall x :: x in l ==> 0 <= x < |fat0| && fat0[x] == FREE_BLOCK && fat[x] != FREE_BLOCK)
    && (forall b :: 0 <= b < |fat0| && b !in l ==> fat[b] == fat0[b])
    && CountFree(fat) + |l| == CountFree(fat0)
  }

  lemma BuildMore(fat0: seq<int>, fat: seq<int>, l: seq<int>, cur: int, v: int)
    requires Building(fat0, fat, l, cur) && 0 <= cur < |fat| && fat[cur] == FREE_BLOCK && v != FREE_BLOCK
    ensures Building(fat0, fat[cur := v], l + [cur], v)
  {
    assert cur !in l;
    SegmentUpdate(fat, l, cur, cur, v);
    SegmentOne(fat[cur := v], cur, v);
    SegmentConcat(fat[cur := v], l, [cur], v);
    CountFreeUpdate(fat, cur, v);
    forall x | x in l + [cur] ensures x in l || x == cur {}
    assert cur in l + [cur] by { assert (l + [cur])[|l|] == cur; }
  }

  lemma Built(fat0: seq<int>, fat: seq<int>, chains: seq<seq<int>>, l: seq<int>)
    requires Partition(fat0, chains) && l != [] && Building(fat0, fat, l, END_OF_CHAIN)
    ensures Partition(fat, chains + [l])
  {
    ChainAdded(fat0, chains, fat, l);
  }

  class FileSystem {
    const memory: array<char>
    const fat: array<int>
    const fd_table: array<FileDescriptor>
    const open_file_fd_table: array<OpenedFile>
    var file_count: int
    var opened_file_count: int
    var transaction_log: TransactionLog
    ghost var chains: seq<seq<int>>

    ghost predicate Sizes() {
      && memory.Length == MEMORY_SIZE && fat.Length == NUM_BLOCKS
      && fd_table.Length == NUM_FILES && open_file_fd_table.Length == NUM_OPENED_FILES
    }

    ghost predicate Valid()
      reads this, fat, fd_table
    {
      Sizes() && Volume(fat[..], fd_table[..], file_count, chains)
    }

    ghost predicate OpensValid()
      reads this, fd_table, open_file_fd_table
    {
      Sizes() && OpenTable(open_file_fd_table[..], opened_file_count, fd_table[..], file_count)
    }

    /** What the file system holds. */
    ghost function Contents(): map<string, seq<char>>
      requires Valid()
      reads this, memory, fat, fd_table
    {
      Files(memory[..], fd_table[..], file_count, chains)
    }

    /** Nothing could be restored from disk: default values. */
    constructor ()
      ensures Valid() && OpensValid() && Contents() == map[] && file_count == 0 && opened_file_count == 0 && chains == []
      ensures fat[..] == seq(NUM_BLOCKS, _ => FREE_BLOCK)
      ensures open_file_fd_table[..] == seq(NUM_OPENED_FILES, _ => OpenedFile(NO_OPENED_FILE, 0))
      ensures fresh(memory) && fresh(fat) && fresh(fd_table) && fresh(open_file_fd_table)
    {
      memory := new char[MEMORY_SIZE](_ => '\0');
      fat := new int[NUM_BLOCKS](_ => FREE_BLOCK);
      fd_table := new FileDescriptor[NUM_FILES](_ => EMPTY_DESCRIPTOR);
      open_file_fd_table := new OpenedFile[NUM_OPENED_FILES](_ => OpenedFile(NO_OPENED_FILE, 0));
      file_count := 0;
      opened_file_count := 0;
      transaction_log := TransactionLog(-1, -1, -1);
      chains := [];
      new;
      NothingOpen(open_file_fd_table[..]);
      assert Contents().Keys == {};
    }

    // -------------------------------------------------------------- misc.cpp

    method DuplicateName(name: string) returns (found: bool)
      requires Sizes()
      ensures found <==> exists i :: 0 <= i < NUM_FILES && fd_table[i].name == name
    {
      for i := 0 to NUM_FILES
        invariant forall j :: 0 <= j < i ==> fd_table[j].name != name
      {
        if fd_table[i].name == name { return true; }
      }
      return false;
    }

    method CountFreeBlocks() returns (free_blocks: nat)
      requires Sizes()
      ensures free_blocks == CountFree(fat[..])
    {
      free_blocks := 0;
      for i := 0 to NUM_BLOCKS
        invariant free_blocks == CountFree(fat[..i])
      {
        assert fat[..i + 1][..i] == fat[..i];
        if fat[i] == FREE_BLOCK {
          free_blocks := free_blocks + 1;
        }
      }
      assert fat[..NUM_BLOCKS] == fat[..];
    }

    method FirstFreeBlock() returns (b: int)
      requires Sizes()
      ensures IsFirstFree(fat[..], b)
    {
      for i := 0 to NUM_BLOCKS
        invariant forall j :: 0 <= j < i ==> fat[j] != FREE_BLOCK
      {
        if fat[i] == FREE_BLOCK { return i; }
      }
      return -1;
    }

    method FindFileIndexByName(name: string) returns (f: int)
      requires Sizes() && 0 <= file_count <= NUM_FILES
      ensures var g := Find(fd_table[..], file_count, name); f == if g < file_count then g else -1
    {
      for i := 0 to file_count
        invariant forall j :: 0 <= j < i ==> fd_table[j].name != name
      {
        if fd_table[i].name == name { return i; }
      }
      return -1;
    }

    /** The loop's bound is the number of files, not that of slots. */
    method FindOpenFileFreeSlot() returns (slot: int, overrun: bool)
      requires Sizes()
      ensures overrun <==> forall j :: 0 <= j < NUM_OPENED_FILES ==> open_file_fd_table[j].idx != NO_OPENED_FILE
      ensures !overrun ==>
                && 0 <= slot < NUM_OPENED_FILES && open_file_fd_table[slot].idx == NO_OPENED_FILE
                && forall j :: 0 <= j < slot ==> open_file_fd_table[j].idx != NO_OPENED_FILE
    {
      for i := 0 to NUM_FILES
        invariant i <= NUM_OPENED_FILES && forall j :: 0 <= j < i ==> open_file_fd_table[j].idx != NO_OPENED_FILE
      {
        if i >= NUM_OPENED_FILES { return -1, true; }
        if open_file_fd_table[i].idx == NO_OPENED_FILE { return i, false; }
      }
    }

    /** Likewise. */
    method FindOpenFileIndexByName(name: string) returns (slot: int, overrun: bool)
      requires Sizes() && 0 <= file_count <= NUM_FILES
      ensures overrun <==> forall j :: 0 <= j < NUM_OPENED_FILES ==> !Denotes(open_file_fd_table[..], fd_table[..], file_count, j, name)
      ensures !overrun ==>
                && 0 <= slot < NUM_OPENED_FILES && Denotes(open_file_fd_table[..], fd_table[..], file_count, slot, name)
                && forall j :: 0 <= j < slot ==> !Denotes(open_file_fd_table[..], fd_table[..], file_count, j, name)
    {
      for i := 0 to NUM_FILES
        invariant i <= NUM_OPENED_FILES
        invariant forall j :: 0 <= j < i ==> !Denotes(open_file_fd_table[..], fd_table[..], file_count, j, name)
      {
        if i >= NUM_OPENED_FILES { return -1, true; }
        if open_file_fd_table[i].idx != NO_OPENED_FILE {
          var file_index := open_file_fd_table[i].idx;
          if file_index >= 0 && file_index < file_count && fd_table[file_index].name == name {
            assert Denotes(open_file_fd_table[..], fd_table[..], file_count, i, name);
            return i, false;
          }
        }
      }
    }

    // -------------------------------------------------------------- create

    method Create(name: string, size: int) returns (r: CreateStatus)
      requires Valid()
      modifies this`file_count, this`chains, fat, fd_table
      ensures r == if old(file_count) >= NUM_FILES then FILE_CREATE_TOO_MANY_FILES
                   else if !ValidName(name) then FILE_CREATE_INVALID_NAME
                   else if name in old(Contents()) then FILE_CREATE_DUPLICATE_FILE
                   else if CountFree(old(fat[..])) < Blocks(size) || CountFree(old(fat[..])) == 0 then FILE_CREATE_NO_SPACE
                   else FILE_CREATE_SUCCESS
      ensures r != FILE_CREATE_SUCCESS ==> Valid() && Contents() == old(Contents()) && fat[..] == old(fat[..])
      ensures r == FILE_CREATE_SUCCESS && size >= 0 ==>
                && Valid() && name in Contents() && |Contents()[name]| == size
                && Contents() == old(Contents())[name := Contents()[name]]
                && |chains| == |old(chains)| + 1 && chains[..|old(chains)|] == old(chains)
                && |chains[|old(chains)|]| == (if size == 0 then 1 else Blocks(size))
      ensures r == FILE_CREATE_SUCCESS ==> file_count == old(file_count) + 1
                                            && fd_table[old(file_count)].name == name && fd_table[old(file_count)].size == size
      ensures forall f :: 0 <= f < old(file_count) ==> fd_table[f] == old(fd_table[f])
      ensures r == FILE_CREATE_SUCCESS ==> (InOrder(fat[..], fd_table[..], file_count) <==> size >= 0)
      ensures old(OpensValid()) ==> OpensValid()
    {
      hide Volume, FatData.Files, Building, IsReading, OpenTable, Directory, Chained, Partition, Find;
      VolumeParts(fat[..], fd_table[..], file_count, chains);
      if file_count >= NUM_FILES { return FILE_CREATE_TOO_MANY_FILES; }
      if |name| > MAX_NAME_SIZE || |name| < MIN_NAME_SIZE { return FILE_CREATE_INVALID_NAME; }
      var duplicate := DuplicateName(name);
      DuplicateIs(memory[..], fat[..], fd_table[..], file_count, chains, name);
      if duplicate { return FILE_CREATE_DUPLICATE_FILE; }
      var blocks_needed := Blocks(size);
      var free_blocks := CountFreeBlocks();
      if free_blocks < blocks_needed { return FILE_CREATE_NO_SPACE; }
      var starting_block := FirstFreeBlock();
      FirstFreeCount(fat[..], starting_block);
      if starting_block == -1 { return FILE_CREATE_NO_SPACE; }
      ghost var fat0, fds0, m0 := fat[..], fd_table[..], memory[..];
      ghost var l := AllocateChain(starting_block, size, blocks_needed);
      ghost var fd := FileDescriptor(name, starting_block, size);
      fd_table[file_count] := FileDescriptor(name, starting_block, size);
      assert fd_table[..] == fds0[file_count := fd];
      assert memory[..] == m0;
      OpenStill(open_file_fd_table[..], opened_file_count, fds0, file_count, fd);
      file_count := file_count + 1;
      if size >= 0 {
        Created(m0, fat0, fds0, file_count - 1, chains, fat[..], fd, l);
        chains := chains + [l];
      } else {
        FreeStart(fat[..], fd_table[..], file_count, file_count - 1);
      }
      return FILE_CREATE_SUCCESS;
    }

    /** Mark and link the blocks of a new file; one of negative size gets none. */
    method AllocateChain(starting_block: int, size: int, blocks_needed: int) returns (ghost l: seq<int>)
      requires Sizes() && IsFirstFree(fat[..], starting_block) && starting_block != -1
      requires blocks_needed == Blocks(size) <= CountFree(fat[..])
      modifies fat
      ensures size < 0 ==> fat[..] == old(fat[..])
      ensures size >= 0 ==> Building(old(fat[..]), fat[..], l, END_OF_CHAIN) && l != [] && l[0] == starting_block
      ensures size >= 0 ==> |l| == if size == 0 then 1 else blocks_needed
    {
      hide Building;
      ghost var fat0 := fat[..];
      var current_block := starting_block;
      l := [];
      NothingBuilt(fat0, starting_block);
      if size == 0 {
        BuildMore(fat0, fat[..], l, current_block, END_OF_CHAIN);
        fat[current_block] := END_OF_CHAIN;
        l := [current_block];
        assert fat[..] == fat0[current_block := END_OF_CHAIN] && [] + [current_block] == l;
      }
      var i := 1;
      while i <= blocks_needed
        invariant size > 0 ==> 1 <= i <= blocks_needed + 1 && |l| == i - 1
        invariant size > 0 ==> Building(fat0, fat[..], l, if i <= blocks_needed then current_block else END_OF_CHAIN)
        invariant size > 0 && i <= blocks_needed ==> 0 <= current_block < NUM_BLOCKS && fat[current_block] == FREE_BLOCK
        invariant size > 0 ==> (if l == [] then current_block else l[0]) == starting_block
        invariant size == 0 ==> Building(fat0, fat[..], l, END_OF_CHAIN) && l == [starting_block]
        invariant size < 0 ==> fat[..] == fat0
      {
        ghost var before := fat[..];
        BuildCounts(fat0, before, l, current_block);
        fat[current_block] := END_OF_CHAIN;
        CountFreeUpdate(before, current_block, END_OF_CHAIN);
        assert fat[..] == before[current_block := END_OF_CHAIN];
        var next_block := FirstFreeBlock();
        FirstFreeCount(fat[..], next_block);
        if i == blocks_needed {
          fat[current_block] := END_OF_CHAIN;
        } else {
          fat[current_block] := next_block;
        }
        BuildMore(fat0, before, l, current_block, fat[current_block]);
        assert fat[..] == before[current_block := fat[current_block]];
        l := l + [current_block];
        current_block := next_block;
        i := i + 1;
      }
    }

    // -------------------------------------------------------------- open and close

    method Open(name: string) returns (r: OpenStatus, overrun: bool, ghost slot: int)
      requires Valid() && OpensValid()
      modifies this`opened_file_count, open_file_fd_table
      ensures overrun <==> name in Contents() && forall j :: 0 <= j < NUM_OPENED_FILES ==> old(open_file_fd_table[j].idx) != NO_OPENED_FILE
      ensures !overrun ==> r == if name in Contents() then FILE_OPEN_SUCCESS else FILE_OPEN_DOESNT_EXIST
      ensures overrun || r != FILE_OPEN_SUCCESS ==> open_file_fd_table[..] == old(open_file_fd_table[..])
      ensures !overrun && r == FILE_OPEN_SUCCESS ==>
                && 0 <= slot < NUM_OPENED_FILES && old(open_file_fd_table[slot].idx) == NO_OPENED_FILE
                && (forall j :: 0 <= j < slot ==> old(open_file_fd_table[j].idx) != NO_OPENED_FILE)
                && open_file_fd_table[..] == old(open_file_fd_table[..])[slot := OpenedFile(Find(fd_table[..], file_count, name), 0)]
      ensures OpensValid()
    {
      hide Volume, FatData.Files;
      ghost var open0 := open_file_fd_table[..];
      VolumeParts(fat[..], fd_table[..], file_count, chains);
      FindInFiles(memory[..], fat[..], fd_table[..], file_count, chains, name);
      CountOpenBound(open0);
      if opened_file_count >= NUM_FILES { assert false; return FILE_OPEN_TOO_MANY_FILES_OPENED, false, 0; }
      var file_idx := FindFileIndexByName(name);
      if file_idx == -1 { return FILE_OPEN_DOESNT_EXIST, false, 0; }
      var free_slot, past := FindOpenFileFreeSlot();
      if past { return FILE_OPEN_NO_SPACE_FOR_OPEN_FILES, true, 0; }
      open_file_fd_table[free_slot] := OpenedFile(file_idx, 0);
      opened_file_count := opened_file_count + 1;
      assert open_file_fd_table[..] == open0[free_slot := OpenedFile(file_idx, 0)];
      CountOpenUpdate(open0, free_slot, OpenedFile(file_idx, 0));
      SizeNotNegative(fd_table[..], file_count, chains, file_idx);
      return FILE_OPEN_SUCCESS, false, free_slot;
    }

    method Close(name: string) returns (r: CloseStatus, overrun: bool, ghost slot: int)
      requires Valid() && OpensValid()
      modifies this`opened_file_count, open_file_fd_table
      ensures overrun <==> forall j :: 0 <= j < NUM_OPENED_FILES ==> !old(Denotes(open_file_fd_table[..], fd_table[..], file_count, j, name))
      ensures overrun ==> open_file_fd_table[..] == old(open_file_fd_table[..])
      ensures !overrun ==>
                && r == FILE_CLOSE_SUCCESS && 0 <= slot < NUM_OPENED_FILES
                && old(Denotes(open_file_fd_table[..], fd_table[..], file_count, slot, name))
                && (forall j :: 0 <= j < slot ==> !old(Denotes(open_file_fd_table[..], fd_table[..], file_count, j, name)))
                && open_file_fd_table[..] == old(open_file_fd_table[..])[slot := OpenedFile(NO_OPENED_FILE, 0)]
      ensures OpensValid()
    {
      hide Volume, OpenTable, Denotes;
      ghost var open0, fds := open_file_fd_table[..], fd_table[..];
      CountInTable(fat[..], fds, file_count, chains);
      var file_index, past := FindOpenFileIndexByName(name);
      if past {
        assert open_file_fd_table[..] == open0 && fd_table[..] == fds;
        return FILE_CLOSE_INVALID_INDEX, true, 0;
      }
      DenotesOpen(open0, fds, file_count, file_index, name);
      if open_file_fd_table[file_index].idx == NO_OPENED_FILE { assert false; return FILE_CLOSE_NOT_OPENED, false, 0; }
      CloseSlot(file_index);
      return FILE_CLOSE_SUCCESS, false, file_index;
    }

    method CloseSlot(i: int)
      requires OpensValid() && 0 <= i < NUM_OPENED_FILES && open_file_fd_table[i].idx != NO_OPENED_FILE
      modifies this`opened_file_count, open_file_fd_table
      ensures open_file_fd_table[..] == old(open_file_fd_table[..])[i := OpenedFile(NO_OPENED_FILE, 0)]
      ensures OpensValid()
    {
      ghost var open0 := open_file_fd_table[..];
      TableCounts(open0, opened_file_count, fd_table[..], file_count);
      ClosedOne(open0, fd_table[..], file_count, i);
      open_file_fd_table[i] := OpenedFile(NO_OPENED_FILE, 0);
      opened_file_count := opened_file_count - 1;
      assert open_file_fd_table[..] == open0[i := OpenedFile(NO_OPENED_FILE, 0)];
    }

    // -------------------------------------------------------------- read

    /** The block of a file that byte `offset` is in; past the last block, the end mark. */
    method WalkTo(ghost g: int, start: int, offset: int) returns (block_idx: int, block_offset: int, ghost k: nat)
      requires Valid() && 0 <= g < file_count && start == fd_table[g].starting_block && 0 <= offset <= fd_table[g].size
      ensures g < |chains| && offset == BLOCK_SIZE * k + block_offset && 0 <= block_offset < BLOCK_SIZE && k <= |chains[g]|
      ensures block_idx == if k < |chains[g]| then chains[g][k] else END_OF_CHAIN
    {
      hide Volume, Segment, Partition, Distinct;
      VolumeParts(fat[..], fd_table[..], file_count, chains);
      ChainOf(fat[..], fd_table[..], file_count, chains, g);
      block_idx, block_offset, k := start, offset, 0;
      while block_offset >= BLOCK_SIZE
        invariant 0 <= k <= |chains[g]| && offset == BLOCK_SIZE * k + block_offset && 0 <= block_offset
        invariant block_idx == if k < |chains[g]| then chains[g][k] else END_OF_CHAIN
        decreases block_offset
      {
        OnChain(fat[..], chains, g, k);
        block_idx := fat[block_idx];
        block_offset := block_offset - BLOCK_SIZE;
        k := k + 1;
      }
    }

    /** The bytes of file g from offset on, block by block. */
    method CopyOut(ghost g: int, start: int, offset: nat, size: int) returns (buffer: seq<char>)
      requires Valid() && 0 <= g < file_count && start == fd_table[g].starting_block && offset <= fd_table[g].size
      requires offset + size <= fd_table[g].size
      ensures |fd_table[..]| == NUM_FILES && Readable(memory[..], fd_table[..], file_count, chains)
      ensures |buffer| == (if size > 0 then size else 0) && IsPart(FileAt(memory[..], fd_table[..], file_count, chains, g), offset, buffer)
    {
      hide Volume, Segment, Partition, Distinct, FatData.Contents, Chained, Directory, IsPart;
      VolumeParts(fat[..], fd_table[..], file_count, chains);
      ChainOf(fat[..], fd_table[..], file_count, chains, g);
      ghost var l, c := chains[g], FileAt(memory[..], fd_table[..], file_count, chains, g);
      ghost var k;
      var block_idx, block_offset;
      block_idx, block_offset, k := WalkTo(g, start, offset);
      var bytes_to_read := size;
      buffer := [];
      NoPart(c, offset);
      while bytes_to_read > 0
        invariant if size > 0 then |buffer| == size - bytes_to_read && bytes_to_read >= 0 else buffer == [] && bytes_to_read == size
        invariant bytes_to_read > 0 ==> offset + |buffer| == BLOCK_SIZE * k + block_offset && 0 <= block_offset < BLOCK_SIZE
        invariant bytes_to_read > 0 ==> k < |l| && block_idx == l[k]
        invariant IsPart(c, offset, buffer)
        decreases bytes_to_read
      {
        var bytes_in_block := if BLOCK_SIZE - block_offset < bytes_to_read then BLOCK_SIZE - block_offset else bytes_to_read;
        var a := block_idx * BLOCK_SIZE + block_offset;
        BlockOut(memory[..], l, fd_table[g].size, k, block_offset, bytes_in_block);
        PartMore(c, offset, buffer, memory[a..a + bytes_in_block]);
        buffer := buffer + memory[a..a + bytes_in_block];
        bytes_to_read := bytes_to_read - bytes_in_block;
        block_offset := 0;
        if bytes_to_read > 0 {
          OnChain(fat[..], chains, g, k);
          block_idx := fat[block_idx];
          k := k + 1;
          if block_idx == END_OF_CHAIN { break; }
        }
      }
    }

    method Read(name: string, size: int) returns (r: ReadStatus, overrun: bool, buffer: seq<char>)
      requires Valid() && OpensValid()
      modifies open_file_fd_table
      ensures overrun <==> name in old(Contents()) && Find(fd_table[..], file_count, name) >= NUM_OPENED_FILES
      ensures overrun ==> open_file_fd_table[..] == old(open_file_fd_table[..])
      ensures !overrun ==>
                var f, open0 := Find(fd_table[..], file_count, name), old(open_file_fd_table[..]);
                && r == (if name !in old(Contents()) then FILE_READ_INVALID_INDEX
                         else if open0[f].idx == NO_OPENED_FILE then FILE_READ_NOT_OPEN
                         else FILE_READ_SUCCESS)
                && (r != FILE_READ_SUCCESS ==> open_file_fd_table[..] == open0)
                && (r == FILE_READ_SUCCESS ==>
                      && 0 <= open0[f].idx < file_count && fd_table[open0[f].idx].name in old(Contents())
                      && (fd_table[open0[f].idx].name == name <==> open0[f].idx == f)
                      && DidRead(old(Contents())[fd_table[open0[f].idx].name], size, buffer, open0, f, open_file_fd_table[..])
                      && (OpensValid() <==> open_file_fd_table[f].offset >= 0))
    {
      hide Volume, FatData.Files, OpenTable, FatData.FileAt, DidRead;
      ghost var open0 := open_file_fd_table[..];
      VolumeParts(fat[..], fd_table[..], file_count, chains);
      FindInFiles(memory[..], fat[..], fd_table[..], file_count, chains, name);
      overrun, buffer := false, [];
      var file_idx := FindFileIndexByName(name);
      if file_idx == -1 { r := FILE_READ_INVALID_INDEX; return; }
      if file_idx >= NUM_OPENED_FILES { r, overrun := FILE_READ_NOT_OPEN, true; return; }
      if open_file_fd_table[file_idx].idx == NO_OPENED_FILE { r := FILE_READ_NOT_OPEN; return; }
      SlotIn(open0, opened_file_count, fd_table[..], file_count, file_idx);
      NameOf(fd_table[..], file_count, file_idx, open0[file_idx].idx);
      r, buffer := ReadSlot(file_idx, size);
    }

    /** read, once the slot is known: the slot may be open on another file than the one named. */
    method ReadSlot(slot: nat, size: int) returns (r: ReadStatus, buffer: seq<char>)
      requires Valid() && OpensValid() && slot < NUM_OPENED_FILES && 0 <= open_file_fd_table[slot].idx < file_count
      modifies open_file_fd_table
      ensures r == FILE_READ_SUCCESS
      ensures fd_table[old(open_file_fd_table[slot].idx)].name in old(Contents())
      ensures DidRead(old(Contents())[fd_table[old(open_file_fd_table[slot].idx)].name], size, buffer,
                      old(open_file_fd_table[..]), slot, open_file_fd_table[..])
      ensures OpensValid() <==> open_file_fd_table[slot].offset >= 0
    {
      hide Volume, FatData.Files, OpenTable, FatData.FileAt, DidRead, Directory, Chained, Partition;
      ghost var open0, c := open_file_fd_table[..], Contents();
      VolumeParts(fat[..], fd_table[..], file_count, chains);
      SlotIn(open0, opened_file_count, fd_table[..], file_count, slot);
      var fd_index, offset := open_file_fd_table[slot].idx, open_file_fd_table[slot].offset;
      var file := fd_table[fd_index];
      FileInFiles(memory[..], fat[..], fd_table[..], file_count, chains, fd_index);
      if offset > file.size { assert false; return FILE_READ_EOF, []; }
      var n := size;
      if offset + size > file.size {
        n := file.size - offset;
      }
      buffer := CopyOut(fd_index, file.starting_block, offset, n);
      ReadIs(c[file.name], size, n, buffer, open0, slot);
      Moved(open0, opened_file_count, fd_table[..], file_count, slot, offset + n);
      open_file_fd_table[slot] := OpenedFile(fd_index, offset + n);
      assert open_file_fd_table[..] == open0[slot := OpenedFile(fd_index, offset + n)];
      r := FILE_READ_SUCCESS;
    }

    // -------------------------------------------------------------- write

    /** Link the first free block in behind the block found to be the file's last. */
    method GrowOne(ghost fat0: seq<int>, ghost g: int, ghost added: seq<int>, start: int) returns (new_block: int)
      requires Sizes() && 0 <= g < |chains| && chains[g] != [] && start == chains[g][0] && Grown(fat0, chains, g, fat[..], added)
      modifies fat, this`transaction_log
      ensures IsFirstFree(old(fat[..]), new_block)
      ensures new_block == -1 ==> fat[..] == old(fat[..]) && transaction_log == old(transaction_log)
      ensures new_block != -1 ==>
                && Grown(fat0, chains, g, fat[..], added + [new_block])
                && transaction_log == var log := old(transaction_log);
                     if log.first_new_block == -1 then log.(first_new_block := new_block) else log
    {
      hide Grown, Partition;
      GrownCounts(fat0, chains, g, fat[..], added);
      new_block := FirstFreeBlock();
      if new_block == -1 { return; }
      var last_block := FindLast(g, added, start);
      GrowMore(fat0, chains, g, fat[..], added, new_block);
      if transaction_log.first_new_block == -1 {
        transaction_log := transaction_log.(first_new_block := new_block);
      }
      ghost var before := fat[..];
      fat[last_block] := new_block;
      fat[new_block] := END_OF_CHAIN;
      assert fat[..] == before[last_block := new_block][new_block := END_OF_CHAIN];
    }

    /** Free blocks are linked in one by one, until there are enough or none are left. */
    method Grow(ghost g: int, start: int, additional: nat) returns (ok: bool, ghost added: seq<int>)
      requires Sizes() && Partition(fat[..], chains) && 0 <= g < |chains| && chains[g] != [] && start == chains[g][0]
      requires transaction_log.first_new_block == -1
      modifies fat, this`transaction_log
      ensures Grown(old(fat[..]), chains, g, fat[..], added)
      ensures ok <==> additional <= CountFree(old(fat[..]))
      ensures ok ==> |added| == additional
      ensures transaction_log == old(transaction_log).(first_new_block := if added == [] then -1 else added[0])
    {
      hide Grown, Partition, IsFirstFree;
      ghost var fat0, log0 := fat[..], transaction_log;
      GrowStarts(fat0, chains, g);
      added := [];
      for i := 0 to additional
        invariant Grown(fat0, chains, g, fat[..], added) && |added| == i
        invariant transaction_log == log0.(first_new_block := if added == [] then -1 else added[0])
        invariant added != [] ==> added[0] != -1
      {
        GrownCounts(fat0, chains, g, fat[..], added);
        ghost var before := fat[..];
        var new_block := GrowOne(fat0, g, added, start);
        FirstFreeCount(before, new_block);
        if new_block == -1 { return false, added; }
        added := added + [new_block];
      }
      GrownCounts(fat0, chains, g, fat[..], added);
      ok := true;
    }

    /** Walk a file's chain to its end. */
    method FindLast(ghost g: int, ghost added: seq<int>, start: int) returns (last_block: int)
      requires Sizes() && 0 <= g < |chains| && chains[g] != [] && start == chains[g][0]
      requires Partition(fat[..], chains[g := chains[g] + added])
      ensures last_block == LastOf(chains[g] + added)
    {
      hide Partition;
      ghost var grown, l, k := chains[g := chains[g] + added], chains[g] + added, 0;
      last_block := start;
      OnChain(fat[..], grown, g, 0);
      while fat[last_block] != END_OF_CHAIN
        invariant 0 <= k < |l| && last_block == l[k] && 0 <= last_block < NUM_BLOCKS
        decreases |l| - k
      {
        OnChain(fat[..], grown, g, k);
        last_block := fat[last_block];
        k := k + 1;
        OnChain(fat[..], grown, g, k);
      }
      OnChain(fat[..], grown, g, k);
    }

    /** transactionRollback of repair.cpp, for a write that has added blocks. */
    method TransactionRollback(ghost fat0: seq<int>, ghost g: int, ghost added: seq<int>)
      requires Sizes() && Partition(fat0, chains) && Grown(fat0, chains, g, fat[..], added)
      requires 0 <= transaction_log.file_idx < NUM_FILES && 0 <= g < |chains| && chains[g] != []
      requires transaction_log.last_valid_block == chains[g][0]
      requires transaction_log.first_new_block == if added == [] then -1 else added[0]
      modifies fat, fd_table, this`transaction_log
      ensures 0 <= LastOf(chains[g]) < |fat0| && 0 <= chains[g][0] < |fat0|
      ensures fat[..] == RolledBack(fat0, chains[g], added)
      ensures var f := old(transaction_log.file_idx);
              fd_table[..] == old(fd_table[..])[f := old(fd_table[f]).(size := (chains[g][0] + 1) * BLOCK_SIZE)]
    {
      hide Grown, Partition, RolledBack;
      ghost var fat1, fds1 := fat[..], fd_table[..];
      OnChain(fat0, chains, g, 0);
      var f := transaction_log.file_idx;
      fd_table[f] := fd_table[f].(size := (transaction_log.last_valid_block + 1) * BLOCK_SIZE);
      assert fd_table[..] == fds1[f := fds1[f].(size := (chains[g][0] + 1) * BLOCK_SIZE)];
      var block_idx := transaction_log.first_new_block;
      ghost var k := 0;
      while block_idx != -1 && block_idx != END_OF_CHAIN
        invariant 0 <= k <= |added| && Clearing(fat1, fat[..], added, k) && transaction_log == old(transaction_log)
        invariant fd_table[..] == fds1[f := fds1[f].(size := (chains[g][0] + 1) * BLOCK_SIZE)]
        invariant block_idx == if k < |added| then added[k] else if added == [] then -1 else END_OF_CHAIN
        decreases |added| - k
      {
        AddedChain(fat0, chains, g, fat1, added, k);
        ClearMore(fat1, fat[..], added, k);
        assert fat[block_idx] == fat1[block_idx];
        var next_block := fat[block_idx];
        ghost var before := fat[..];
        fat[block_idx] := FREE_BLOCK;
        assert fat[..] == before[added[k] := FREE_BLOCK];
        block_idx := next_block;
        k := k + 1;
      }
      NothingAdded(fat0, chains, g, fat1, added, k);
      ClearEnds(fat0, chains, g, fat1, added, fat[..]);
      ghost var before := fat[..];
      fat[transaction_log.last_valid_block] := END_OF_CHAIN;
      assert fat[..] == before[chains[g][0] := END_OF_CHAIN];
      transaction_log := TransactionLog(-1, -1, -1);
    }

    method CopyBytes(a: nat, bytes: seq<char>)
      requires a + |bytes| <= memory.Length
      modifies memory
      ensures memory[..] == Copied(old(memory[..]), a, bytes)
    {
      forall i | 0 <= i < |bytes| {
        memory[a + i] := bytes[i];
      }
    }

    /** The bytes go into the file's blocks, block by block, from offset on. */
    method CopyIn(ghost g: int, start: int, offset: nat, buffer: seq<char>, size: int) returns (r: WriteStatus)
      requires Valid() && 0 <= g < file_count && start == fd_table[g].starting_block && size <= |buffer|
      requires if size > 0 then offset + size <= fd_table[g].size else offset <= fd_table[g].size
      modifies memory
      ensures r == FILE_WRITE_SUCCESS || r == FILE_WRITE_EXCEEDS_FILE_SIZE
      ensures r == FILE_WRITE_EXCEEDS_FILE_SIZE <==> offset == BLOCK_SIZE * |chains[g]|
      ensures r == FILE_WRITE_EXCEEDS_FILE_SIZE ==> memory[..] == old(memory[..]) && size <= 0
      ensures r == FILE_WRITE_SUCCESS ==>
                var data := buffer[..if size > 0 then size else 0];
                && offset + |data| <= BLOCK_SIZE * |chains[g]|
                && Written(old(memory[..]), memory[..], chains[g], offset, data, |data|)
    {
      hide Volume, Segment, Partition, Distinct, Chained, Directory, Written;
      VolumeParts(fat[..], fd_table[..], file_count, chains);
      ChainOf(fat[..], fd_table[..], file_count, chains, g);
      ghost var l, m0, k := chains[g], memory[..], 0;
      var block_idx, block_offset := start, offset;
      while block_offset >= BLOCK_SIZE
        invariant 0 <= k < |l| && offset == BLOCK_SIZE * k + block_offset && 0 <= block_offset && block_idx == l[k]
        invariant memory[..] == m0
        decreases block_offset
      {
        OnChain(fat[..], chains, g, k);
        block_idx := fat[block_idx];
        if block_idx == END_OF_CHAIN { return FILE_WRITE_EXCEEDS_FILE_SIZE; }
        block_offset := block_offset - BLOCK_SIZE;
        k := k + 1;
      }
      ghost var data := buffer[..if size > 0 then size else 0];
      ghost var done := 0;
      WriteStarts(m0, l, offset, data);
      var bytes_to_write, buffer_idx := size, 0;
      while bytes_to_write > 0
        invariant Valid() && 0 <= done <= |data| && buffer_idx == done
        invariant bytes_to_write == size - done && offset + |data| <= BLOCK_SIZE * |l|
        invariant bytes_to_write > 0 ==> offset + done == BLOCK_SIZE * k + block_offset && 0 <= block_offset < BLOCK_SIZE
        invariant bytes_to_write > 0 ==> 0 <= k < |l| && block_idx == l[k]
        invariant Written(m0, memory[..], l, offset, data, done)
        decreases bytes_to_write
      {
        var bytes_in_block := if BLOCK_SIZE - block_offset < bytes_to_write then BLOCK_SIZE - block_offset else bytes_to_write;
        BlockIn(m0, memory[..], l, offset, data, done, k, block_offset, bytes_in_block);
        CopyBytes(block_idx * BLOCK_SIZE + block_offset, buffer[buffer_idx..buffer_idx + bytes_in_block]);
        assert buffer[buffer_idx..buffer_idx + bytes_in_block] == data[done..done + bytes_in_block];
        buffer_idx := buffer_idx + bytes_in_block;
        done := done + bytes_in_block;
        bytes_to_write := bytes_to_write - bytes_in_block;
        block_offset := 0;
        if bytes_to_write > 0 {
          OnChain(fat[..], chains, g, k);
          block_idx := fat[block_idx];
          k := k + 1;
          if block_idx == END_OF_CHAIN { break; }
        }
      }
      return FILE_WRITE_SUCCESS;
    }

    /** The part of write that makes room for new_size bytes in file g; f is the file named. */
    method MakeRoom(f: int, g: int, new_size: int) returns (ok: bool, ghost added: seq<int>)
      requires Valid() && 0 <= g < file_count && 0 <= f < NUM_FILES
      modifies this`chains, this`transaction_log, fat, fd_table
      ensures 0 <= old(fd_table[g].size)
      ensures ok <==> !(new_size > old(fd_table[g].size)
                        && Blocks(new_size) - Blocks(old(fd_table[g].size)) > CountFree(old(fat[..])))
      ensures ok ==> Valid() && g < |old(chains)| && chains == old(chains)[g := old(chains[g]) + added]
      ensures ok ==> fd_table[..] == old(fd_table[..])[g := Resized(old(fd_table[g]), new_size)]
      ensures new_size <= old(fd_table[g].size) ==>
                chains == old(chains) && fat[..] == old(fat[..]) && fd_table[..] == old(fd_table[..])
      ensures !ok ==> g < |old(chains)| && chains == old(chains)
      ensures !ok ==> (fat[..] == old(fat[..]) && fd_table[..] == old(fd_table[..]) <==>
                         |chains[g]| == 1 && old(fd_table[f].size) == (old(fd_table[g].starting_block) + 1) * BLOCK_SIZE)
      ensures !ok ==> (InOrder(fat[..], fd_table[..], file_count) <==> |chains[g]| == 1)
    {
      hide Volume, Grown, Partition, Chained, Directory, RolledBack;
      ghost var fat0, fds0 := fat[..], fd_table[..];
      VolumeParts(fat0, fds0, file_count, chains);
      ChainOf(fat0, fds0, file_count, chains, g);
      var file := fd_table[g];
      added := [];
      if new_size > file.size {
        transaction_log := TransactionLog(f, file.starting_block, -1);
        var additional_blocks_needed := Blocks(new_size) - Blocks(file.size);
        ok, added := Grow(g, file.starting_block, additional_blocks_needed);
        if !ok {
          FirstAdded(fat0, chains, g, fat[..], added);
          TransactionRollback(fat0, g, added);
          RollbackExactly(fat0, fds0, file_count, chains, g, added, fd_table[..]);
          SameSize(fds0, f, (chains[g][0] + 1) * BLOCK_SIZE);
          return;
        }
        GrownVolume(fat0, fds0, file_count, chains, g, fat[..], added, new_size);
        fd_table[g] := file.(size := new_size);
        assert fd_table[..] == fds0[g := Resized(file, new_size)];
        chains := chains[g := chains[g] + added];
      } else {
        SameChains(chains, g);
        assert fds0[g := Resized(file, new_size)] == fds0;
      }
      ok := true;
    }

    /** write, once the slot is known. */
    method WriteSlot(f: nat, buffer: seq<char>, size: int) returns (r: WriteStatus)
      requires Valid() && OpensValid() && f < NUM_OPENED_FILES && 0 <= open_file_fd_table[f].idx < file_count && size <= |buffer|
      modifies this`chains, this`transaction_log, memory, fat, fd_table, open_file_fd_table
      ensures var g, o := old(open_file_fd_table[f].idx), old(open_file_fd_table[f].offset);
              var file, l := old(fd_table[..])[g], old(chains)[g];
              && 0 <= o <= file.size
              && r == WriteOutcome(file.size, |l|, CountFree(old(fat[..])), o, size)
              && file.name in old(Contents()) && |old(Contents())[file.name]| == file.size
              && (r == FILE_WRITE_SUCCESS ==>
                    && Valid()
                    && Contents() == old(Contents())[file.name := Spliced(old(Contents())[file.name], o, buffer[..if size > 0 then size else 0])]
                    && open_file_fd_table[..] == old(open_file_fd_table[..])[f := OpenedFile(g, o + size)]
                    && (OpensValid() <==> o + size >= 0))
              && (r == FILE_WRITE_EXCEEDS_FILE_SIZE ==> Valid() && Contents() == old(Contents()) && OpensValid())
              && (r == FILE_WRITE_NO_SPACE ==>
                    && (fat[..] == old(fat[..]) && fd_table[..] == old(fd_table[..]) <==>
                       |l| == 1 && old(fd_table[..])[f].size == (file.starting_block + 1) * BLOCK_SIZE)
                    && (InOrder(fat[..], fd_table[..], file_count) <==> |l| == 1))
      ensures r != FILE_WRITE_SUCCESS ==> memory[..] == old(memory[..]) && open_file_fd_table[..] == old(open_file_fd_table[..])
    {
      hide Volume, FatData.Files, OpenTable, FatData.FileAt, Directory, Chained, Partition, Written, Spliced;
      ghost var open0, c, m0, fds0, chains0 := open_file_fd_table[..], Contents(), memory[..], fd_table[..], chains;
      VolumeParts(fat[..], fds0, file_count, chains);
      SlotIn(open0, opened_file_count, fds0, file_count, f);
      var g, offset := open_file_fd_table[f].idx, open_file_fd_table[f].offset;
      FileInFiles(m0, fat[..], fds0, file_count, chains, g);
      ChainOf(fat[..], fds0, file_count, chains, g);
      ghost var added;
      var ok;
      ok, added := MakeRoom(f, g, offset + size);
      if !ok { return FILE_WRITE_NO_SPACE; }
      VolumeParts(fat[..], fd_table[..], file_count, chains);
      ChainOf(fat[..], fd_table[..], file_count, chains, g);
      OpenGrown(open0, opened_file_count, fds0, file_count, g, fd_table[..]);
      r := CopyIn(g, fd_table[g].starting_block, offset, buffer, size);
      if r == FILE_WRITE_SUCCESS {
        WroteFiles(m0, memory[..], fat[..], fds0, file_count, chains0, g, added, fd_table[..], offset, buffer[..if size > 0 then size else 0]);
        Moved(open0, opened_file_count, fd_table[..], file_count, f, offset + size);
        open_file_fd_table[f] := OpenedFile(g, offset + size);
        assert open_file_fd_table[..] == open0[f := OpenedFile(g, offset + size)];
      }
    }

    /** The file written is the one the slot is open on, which is the one named only if the slot's
        number is the file's own. */
    method Write(name: string, buffer: seq<char>, size: int) returns (r: WriteStatus, overrun: bool)
      requires Valid() && OpensValid() && size <= |buffer|
      modifies this`chains, this`transaction_log, memory, fat, fd_table, open_file_fd_table
      ensures overrun <==> name in old(Contents()) && old(Find(fd_table[..], file_count, name)) >= NUM_OPENED_FILES
      ensures overrun ==> Valid() && OpensValid() && Contents() == old(Contents())
      ensures !overrun ==> (name !in old(Contents()) <==> r == FILE_WRITE_INVALID_INDEX)
      ensures !overrun && name in old(Contents()) ==>
                var f, open0, fds0 := old(Find(fd_table[..], file_count, name)), old(open_file_fd_table[..]), old(fd_table[..]);
                && (open0[f].idx == NO_OPENED_FILE <==> r == FILE_WRITE_NOT_OPENED)
                && (open0[f].idx != NO_OPENED_FILE ==>
                      && 0 <= open0[f].idx < file_count
                      && r == WriteOutcome(fds0[open0[f].idx].size, |old(chains)[open0[f].idx]|, CountFree(old(fat[..])), open0[f].offset, size))
                && (r == FILE_WRITE_NO_SPACE ==>
                      (InOrder(fat[..], fd_table[..], file_count) <==> |old(chains)[open0[f].idx]| == 1))
                && (r == FILE_WRITE_SUCCESS ==>
                      var file, o := fds0[open0[f].idx], open0[f].offset;
                      && (file.name == name <==> open0[f].idx == f)
                      && Valid() && file.name in old(Contents()) && 0 <= o <= |old(Contents())[file.name]|
                      && Contents() == old(Contents())[file.name := Spliced(old(Contents())[file.name], o, buffer[..if size > 0 then size else 0])]
                      && open_file_fd_table[..] == open0[f := OpenedFile(open0[f].idx, o + size)]
                      && (OpensValid() <==> o + size >= 0))
      ensures r != FILE_WRITE_SUCCESS && r != FILE_WRITE_NO_SPACE ==> Valid() && OpensValid() && Contents() == old(Contents())
    {
      hide Volume, FatData.Files, OpenTable, FatData.FileAt, Directory, Chained, Partition, Spliced, WriteOutcome;
      VolumeParts(fat[..], fd_table[..], file_count, chains);
      FindInFiles(memory[..], fat[..], fd_table[..], file_count, chains, name);
      overrun := false;
      var file_idx := FindFileIndexByName(name);
      if file_idx == -1 { r := FILE_WRITE_INVALID_INDEX; return; }
      if file_idx >= NUM_OPENED_FILES { r, overrun := FILE_WRITE_NOT_OPENED, true; return; }
      if open_file_fd_table[file_idx].idx == NO_OPENED_FILE { r := FILE_WRITE_NOT_OPENED; return; }
      SlotIn(open_file_fd_table[..], opened_file_count, fd_table[..], file_count, file_idx);
      NameOf(fd_table[..], file_count, file_idx, open_file_fd_table[file_idx].idx);
      r := WriteSlot(file_idx, buffer, size);
      OutcomeIsNone(old(fd_table[..])[old(open_file_fd_table[..])[file_idx].idx].size,
                    |old(chains)[old(open_file_fd_table[..])[file_idx].idx]|, CountFree(old(fat[..])),
                    old(open_file_fd_table[..])[file_idx].offset, size);
    }

    // -------------------------------------------------------------- delete

    method FreeBlocks(ghost f: int, start: int)
      requires Sizes() && Partition(fat[..], chains) && 0 <= f < |chains| && chains[f] != [] && start == chains[f][0]
      modifies fat
      ensures forall b :: 0 <= b < NUM_BLOCKS ==> fat[b] == if b in chains[f] then FREE_BLOCK else old(fat[..])[b]
    {
      hide Partition;
      ghost var fat0, l, k := fat[..], chains[f], 0;
      var start_block := start;
      while start_block != END_OF_CHAIN
        invariant 0 <= k <= |l| && Clearing(fat0, fat[..], l, k) && start_block == if k < |l| then l[k] else END_OF_CHAIN
        decreases |l| - k
      {
        OnChain(fat0, chains, f, k);
        NotYet(fat0, chains, f, k, fat[..]);
        ClearMore(fat0, fat[..], l, k);
        var next_block := fat[start_block];
        ghost var before := fat[..];
        fat[start_block] := FREE_BLOCK;
        assert fat[..] == before[l[k] := FREE_BLOCK];
        start_block := next_block;
        k := k + 1;
      }
      if k < |l| { OnChain(fat0, chains, f, k); }
      Cleared(fat0, fat[..], l);
    }

    /** The descriptors all move up by one, whichever file it is that goes. */
    method MoveUp() returns (overrun: bool)
      requires Sizes() && 0 < file_count <= NUM_FILES && Directory(fd_table[..], file_count)
      modifies this`file_count, fd_table
      ensures overrun <==> old(file_count) == NUM_FILES
      ensures !overrun ==> file_count == old(file_count) - 1
      ensures !overrun ==> forall g :: 0 <= g < old(file_count) ==> fd_table[g] == old(fd_table[..])[g + 1]
      ensures !overrun ==> forall g :: file_count <= g < NUM_FILES ==> fd_table[g] == EMPTY_DESCRIPTOR
    {
      ghost var fds0 := fd_table[..];
      for i := 0 to file_count
        invariant i < NUM_FILES
        invariant forall g :: 0 <= g < i ==> fd_table[g] == fds0[g + 1]
        invariant forall g :: i <= g < NUM_FILES ==> fd_table[g] == fds0[g]
        invariant file_count == old(file_count)
      {
        if i + 1 >= NUM_FILES { return true; }
        fd_table[i] := fd_table[i + 1];
      }
      file_count := file_count - 1;
      fd_table[file_count] := EMPTY_DESCRIPTOR;
      overrun := false;
    }

    /** The loop over the table of open files at the end of delete_. */
    method CloseSlots(file_idx: int)
      requires Sizes() && opened_file_count == CountOpen(open_file_fd_table[..]) && file_idx != NO_OPENED_FILE
      modifies this`opened_file_count, open_file_fd_table
      ensures open_file_fd_table[..] == AfterClose(old(open_file_fd_table[..]), old(opened_file_count), file_idx)
      ensures opened_file_count == CountOpen(open_file_fd_table[..])
    {
      ghost var open0, used := open_file_fd_table[..], opened_file_count;
      var i := 0;
      CountOpenBound(open0);
      while i < opened_file_count
        invariant 0 <= i <= NUM_OPENED_FILES && opened_file_count == CountOpen(open_file_fd_table[..])
        invariant opened_file_count == used - Hits(open0[..i], file_idx)
        invariant forall j :: 0 <= j < i ==> open_file_fd_table[j] == AfterClose(open0, used, file_idx)[j]
        invariant forall j :: i <= j < NUM_OPENED_FILES ==> open_file_fd_table[j] == open0[j]
        decreases opened_file_count - i
      {
        CountOpenBound(open_file_fd_table[..]);
        HitsNext(open0, file_idx, i);
        if open_file_fd_table[i].idx == file_idx {
          ghost var before := open_file_fd_table[..];
          CountOpenUpdate(before, i, OpenedFile(NO_OPENED_FILE, 0));
          open_file_fd_table[i] := OpenedFile(NO_OPENED_FILE, 0);
          opened_file_count := opened_file_count - 1;
          assert open_file_fd_table[..] == before[i := OpenedFile(NO_OPENED_FILE, 0)];
        }
        i := i + 1;
      }
      forall j | i <= j < NUM_OPENED_FILES ensures !IsClosed(open0, used, file_idx, j) {
        HitsMonotone(open0, file_idx, i, j);
      }
    }

    method Delete(name: string) returns (r: DeleteStatus, overrun: bool)
      requires Valid() && OpensValid()
      modifies this`file_count, this`opened_file_count, this`chains, fat, fd_table, open_file_fd_table
      ensures overrun <==> name in old(Contents()) && old(file_count) == NUM_FILES
      ensures !overrun ==> r == if name in old(Contents()) then FILE_DELETE_SUCCESS else FILE_DELETE_DOESNT_EXIST
      ensures !overrun && r == FILE_DELETE_DOESNT_EXIST ==> Valid() && OpensValid() && Contents() == old(Contents())
      ensures r == FILE_DELETE_SUCCESS && !overrun ==>
                var f, fds0 := old(Find(fd_table[..], file_count, name)), old(fd_table[..]);
                var open0, used0 := old(open_file_fd_table[..]), old(opened_file_count);
                && file_count == old(file_count) - 1
                && (InOrder(fat[..], fd_table[..], file_count) <==> f == 0)
                && (f == 0 ==> Valid() && Contents() == old(Contents()) - {name})
                && open_file_fd_table[..] == AfterClose(open0, used0, f)
                && ((forall i :: 0 <= i < NUM_OPENED_FILES ==> open_file_fd_table[i].idx == NO_OPENED_FILE) <==>
                      used0 == 0 || (used0 == 1 && open0[0].idx == f))
                && (OpensValid() <==> forall i :: 0 <= i < NUM_OPENED_FILES && open0[i].idx != NO_OPENED_FILE
                                                  && !IsClosed(open0, used0, f, i) ==>
                      open0[i].idx + 1 < old(file_count) && open0[i].offset <= fds0[open0[i].idx + 1].size)
                && (forall i :: 0 <= i < NUM_OPENED_FILES && open_file_fd_table[i].idx != NO_OPENED_FILE ==>
                      var k := open_file_fd_table[i].idx;
                      0 <= k < old(file_count) && fd_table[k].name != fds0[k].name)
    {
      hide Volume, FatData.Files, OpenTable, Directory, Chained, Partition, InOrder, AfterClose, IsClosed, CountOpen, Find;
      ghost var fds0, open0, count := fd_table[..], open_file_fd_table[..], file_count;
      VolumeParts(fat[..], fds0, count, chains);
      FindInFiles(memory[..], fat[..], fds0, count, chains, name);
      TableCounts(open0, opened_file_count, fds0, count);
      var file_idx := FindFileIndexByName(name);
      if file_idx == -1 { return FILE_DELETE_DOESNT_EXIST, false; }
      overrun := Erase(file_idx);
      r := FILE_DELETE_SUCCESS;
      if overrun { return; }
      assert open_file_fd_table[..] == open0;
      CloseSlots(file_idx);
      AllClosedExactly(open0, file_idx);
      TableAfter(open0, fds0, count, file_idx, fd_table[..]);
      MovedOn(open0, fds0, count, file_idx, fd_table[..]);
    }

    /** The part of delete_ that frees the blocks and moves the descriptors. */
    method Erase(f: nat) returns (overrun: bool)
      requires Valid() && f < file_count
      modifies this`file_count, this`chains, fat, fd_table
      ensures overrun <==> old(file_count) == NUM_FILES
      ensures !overrun ==>
                && file_count == old(file_count) - 1
                && (forall g :: 0 <= g < old(file_count) ==> fd_table[g] == old(fd_table[..])[g + 1])
                && (InOrder(fat[..], fd_table[..], file_count) <==> f == 0)
                && (f == 0 ==> Valid() && Contents() == old(Contents()) - {old(fd_table[0]).name})
    {
      hide Volume, FatData.Files, Directory, Chained, Partition, InOrder;
      ghost var fat0, fds0, chains0, m0, count := fat[..], fd_table[..], chains, memory[..], file_count;
      VolumeParts(fat0, fds0, count, chains);
      ChainOf(fat0, fds0, count, chains, f);
      FreeBlocks(f, fd_table[f].starting_block);
      overrun := MoveUp();
      if overrun { return; }
      assert memory[..] == m0;
      DeleteExactly(fat0, fds0, count, chains0, f, fat[..], fd_table[..]);
      if f == 0 {
        DeletedFirst(fat0, fds0, count, chains0, fat[..], fd_table[..]);
        VolumeParts(fat[..], fd_table[..], file_count, chains0[1..]);
        FilesShifted(m0, fds0, count, chains0, fd_table[..], chains0[1..]);
        chains := chains[1..];
      }
    }
  }

  lemma {:induction false} NothingOpen(open: seq<OpenedFile>)
    requires forall i :: 0 <= i < |open| ==> open[i].idx == NO_OPENED_FILE
    ensures CountOpen(open) == 0
  {
    if open != [] { NothingOpen(open[..|open| - 1]); }
  }

  lemma VolumeParts(fat: seq<int>, fds: seq<FileDescriptor>, count: int, chains: seq<seq<int>>)
    requires Volume(fat, fds, count, chains)
    ensures Directory(fds, count) && Chained(fds, count, chains) && Partition(fat, chains)
    ensures |fds| == NUM_FILES && 0 <= count <= NUM_FILES && |chains| == count
  {
  }

  lemma CountInTable(fat: seq<int>, fds: seq<FileDescriptor>, count: int, chains: seq<seq<int>>)
    requires Volume(fat, fds, count, chains)
    ensures 0 <= count <= NUM_FILES
  {
  }

  lemma DuplicateIs(m: seq<char>, fat: seq<int>, fds: seq<FileDescriptor>, count: nat, chains: seq<seq<int>>, name: string)
    requires Volume(fat, fds, count, chains) && |m| == MEMORY_SIZE && |name| >= MIN_NAME_SIZE
    ensures (exists i :: 0 <= i < NUM_FILES && fds[i].name == name) <==> name in Files(m, fds, count, chains)
    ensures Find(fds, count, name) < count <==> name in Files(m, fds, count, chains)
  {
  }

  lemma NothingBuilt(fat: seq<int>, cur: int)
    ensures Building(fat, fat, [], cur)
  {
  }

  lemma BuildCounts(fat0: seq<int>, fat: seq<int>, l: seq<int>, cur: int)
    requires Building(fat0, fat, l, cur)
    ensures CountFree(fat) + |l| == CountFree(fat0)
  {
  }

  /** A new file: the volume is in order, and holds one file more. */
  lemma Created(m: seq<char>, fat0: seq<int>, fds: seq<FileDescriptor>, count: nat, chains: seq<seq<int>>,
                fat: seq<int>, fd: FileDescriptor, l: seq<int>)
    requires Volume(fat0, fds, count, chains) && count < NUM_FILES && |m| == MEMORY_SIZE
    requires ValidName(fd.name) && Find(fds, count, fd.name) == count && fd.size >= 0
    requires Building(fat0, fat, l, END_OF_CHAIN) && l != [] && l[0] == fd.starting_block
    requires |l| == if fd.size == 0 then 1 else Blocks(fd.size)
    ensures |fds| == NUM_FILES && Volume(fat, fds[count := fd], count + 1, chains + [l])
    ensures InOrder(fat, fds[count := fd], count + 1)
    ensures var files := Files(m, fds[count := fd], count + 1, chains + [l]);
            && fd.name in files && |files[fd.name]| == fd.size
            && files == Files(m, fds, count, chains)[fd.name := files[fd.name]]
  {
    VolumeParts(fat0, fds, count, chains);
    Built(fat0, fat, chains, l);
    var fds', chains' := fds[count := fd], chains + [l];
    NewDirectory(fds, count, fd);
    NewChained(fat, fds, count, chains, fd, l);
    assert IsReading(fat, fds', count + 1, chains') by { hide Partition; }
    hide Partition, Directory, Building;
    FilesAdded(m, fds, count, chains, fd, l);
  }

  lemma NewDirectory(fds: seq<FileDescriptor>, count: nat, fd: FileDescriptor)
    requires Directory(fds, count) && count < NUM_FILES && ValidName(fd.name) && Find(fds, count, fd.name) == count
    ensures Directory(fds[count := fd], count + 1)
  {
  }

  lemma NewChained(fat: seq<int>, fds: seq<FileDescriptor>, count: nat, chains: seq<seq<int>>, fd: FileDescriptor, l: seq<int>)
    requires Chained(fds, count, chains) && count < |fds| && |fat| == NUM_BLOCKS && Segment(fat, l, END_OF_CHAIN)
    requires l != [] && l[0] == fd.starting_block && fd.size >= 0 && |l| == if fd.size == 0 then 1 else Blocks(fd.size)
    ensures Chained(fds[count := fd], count + 1, chains + [l])
  {
  }

  lemma FindInFiles(m: seq<char>, fat: seq<int>, fds: seq<FileDescriptor>, count: nat, chains: seq<seq<int>>, name: string)
    requires Volume(fat, fds, count, chains) && |m| == MEMORY_SIZE
    ensures Find(fds, count, name) < count <==> name in Files(m, fds, count, chains)
  {
  }

  lemma FileInFiles(m: seq<char>, fat: seq<int>, fds: seq<FileDescriptor>, count: nat, chains: seq<seq<int>>, g: nat)
    requires Volume(fat, fds, count, chains) && |m| == MEMORY_SIZE && g < count
    ensures fds[g].name in Files(m, fds, count, chains)
    ensures Files(m, fds, count, chains)[fds[g].name] == FileAt(m, fds, count, chains, g)
    ensures |FileAt(m, fds, count, chains, g)| == fds[g].size
  {
  }

  lemma SizeNotNegative(fds: seq<FileDescriptor>, count: int, chains: seq<seq<int>>, g: nat)
    requires Chained(fds, count, chains) && g < count
    ensures fds[g].size >= 0
  {
  }

  lemma ChainOf(fat: seq<int>, fds: seq<FileDescriptor>, count: nat, chains: seq<seq<int>>, g: nat)
    requires Volume(fat, fds, count, chains) && g < count
    ensures chains[g] != [] && fds[g].starting_block == chains[g][0] && InVolume(chains[g]) && Distinct(chains[g])
    ensures 0 <= fds[g].size <= BLOCK_SIZE * |chains[g]| && |chains[g]| <= NUM_BLOCKS
    ensures Blocks(fds[g].size) <= |chains[g]| <= Blocks(fds[g].size) + 1
  {
    OnChain(fat, chains, g, 0);
  }

  /** The bytes from the slot's offset on, as many as asked for or as there are; the offset moves on. */
  ghost predicate DidRead(c: seq<char>, size: int, buffer: seq<char>, open: seq<OpenedFile>, slot: nat, open': seq<OpenedFile>)
    requires slot < |open|
  {
    var o := open[slot].offset;
    0 <= o <= |c| &&
    var n := if size <= |c| - o then size else |c| - o;
    && buffer == c[o..if n > 0 then o + n else o]
    && open' == open[slot := OpenedFile(open[slot].idx, o + n)]
  }

  ghost predicate IsPart(c: seq<char>, from: nat, part: seq<char>) {
    from + |part| <= |c| && part == c[from..from + |part|]
  }

  lemma NoPart(c: seq<char>, from: nat)
    requires from <= |c|
    ensures IsPart(c, from, [])
  {
  }

  lemma PartMore(c: seq<char>, from: nat, part: seq<char>, more: seq<char>)
    requires IsPart(c, from, part) && from + |part| + |more| <= |c| && more == c[from + |part|..from + |part| + |more|]
    ensures IsPart(c, from, part + more)
  {
  }

  lemma ReadIs(c: seq<char>, size: int, n: int, buffer: seq<char>, open: seq<OpenedFile>, slot: nat)
    requires slot < |open| && 0 <= open[slot].offset <= |c|
    requires n == if open[slot].offset + size > |c| then |c| - open[slot].offset else size
    requires if n > 0 then |buffer| == n && IsPart(c, open[slot].offset, buffer) else buffer == []
    ensures DidRead(c, size, buffer, open, slot, open[slot := OpenedFile(open[slot].idx, open[slot].offset + n)])
  {
  }

  /** One memcpy out of a block. */
  lemma BlockOut(m: seq<char>, l: seq<int>, size: nat, block: nat, offset: nat, k: nat)
    requires |m| == MEMORY_SIZE && InVolume(l) && size <= BLOCK_SIZE * |l| && BLOCK_SIZE * block + offset + k <= size
    requires block < |l| && offset < BLOCK_SIZE && offset + k <= BLOCK_SIZE
    ensures var s, a := BLOCK_SIZE * block + offset, l[block] * BLOCK_SIZE + offset;
            0 <= a && a + k <= MEMORY_SIZE && m[a..a + k] == FatData.Contents(m, l, size)[s..s + k]
  {
  }

  lemma OpenStill(open: seq<OpenedFile>, used: int, fds: seq<FileDescriptor>, count: nat, fd: FileDescriptor)
    requires count < |fds|
    ensures OpenTable(open, used, fds, count) ==> OpenTable(open, used, fds[count := fd], count + 1)
  {
  }

  /** Byte `offset` of the chain's block number `block`. */
  lemma PlaceOf(l: seq<int>, block: nat, offset: nat)
    requires block < |l| && offset < BLOCK_SIZE
    ensures BLOCK_SIZE * block + offset < BLOCK_SIZE * |l| && (BLOCK_SIZE * block + offset) % BLOCK_SIZE == offset
    ensures Addr(l, BLOCK_SIZE * block + offset) == l[block] * BLOCK_SIZE + offset
  {
  }

  lemma MemorySize(m0: seq<char>, m: seq<char>, l: seq<int>, o: nat, data: seq<char>, done: nat)
    requires done <= |data| && o + done <= BLOCK_SIZE * |l| && Written(m0, m, l, o, data, done)
    ensures |m| == MEMORY_SIZE
  {
  }

  /** One memcpy into a block. */
  lemma BlockIn(m0: seq<char>, m: seq<char>, l: seq<int>, o: nat, data: seq<char>, done: nat, block: nat, offset: nat, k: nat)
    requires done + k <= |data| && block < |l| && offset < BLOCK_SIZE && offset + k <= BLOCK_SIZE
    requires o + done == BLOCK_SIZE * block + offset && o + |data| <= BLOCK_SIZE * |l| && Written(m0, m, l, o, data, done)
    ensures var a := l[block] * BLOCK_SIZE + offset;
            && 0 <= a && a + k <= MEMORY_SIZE && |m| == MEMORY_SIZE
            && Written(m0, Copied(m, a, data[done..done + k]), l, o, data, done + k)
  {
    hide *;
    PlaceOf(l, block, offset);
    WriteStep(m0, m, l, o, data, done, k);
    MemorySize(m0, m, l, o, data, done);
  }

  lemma NothingAdded(fat0: seq<int>, chains: seq<seq<int>>, g: int, fat: seq<int>, added: seq<int>, k: nat)
    requires Grown(fat0, chains, g, fat, added) && k <= |added|
    requires (if k < |added| then added[k] else if added == [] then -1 else END_OF_CHAIN) in {-1, END_OF_CHAIN}
    ensures k == |added|
  {
    if k < |added| { AddedChain(fat0, chains, g, fat, added, k); }
  }

  /** What write reports for an open slot at offset o of a file with this size and chain. */
  function WriteOutcome(fileSize: int, blocks: nat, free: nat, o: int, size: int): WriteStatus {
    if o + size > fileSize && Blocks(o + size) - Blocks(fileSize) > free then FILE_WRITE_NO_SPACE
    else if size <= 0 && o == BLOCK_SIZE * blocks then FILE_WRITE_EXCEEDS_FILE_SIZE
    else FILE_WRITE_SUCCESS
  }

  lemma OutcomeIsNone(fileSize: int, blocks: nat, free: nat, o: int, size: int)
    ensures WriteOutcome(fileSize, blocks, free, o, size) != FILE_WRITE_NOT_OPENED
    ensures WriteOutcome(fileSize, blocks, free, o, size) != FILE_WRITE_INVALID_INDEX
  {
  }

  /** A file's size after a write up to new_size. */
  function Resized(file: FileDescriptor, new_size: int): FileDescriptor {
    file.(size := if new_size > file.size then new_size else file.size)
  }

  lemma FirstAdded(fat0: seq<int>, chains: seq<seq<int>>, g: int, fat: seq<int>, added: seq<int>)
    requires Grown(fat0, chains, g, fat, added)
    ensures added != [] ==> added[0] >= 0
  {
    if added != [] { AddedChain(fat0, chains, g, fat, added, 0); }
  }

  lemma SameSize(fds: seq<FileDescriptor>, f: nat, size: int)
    requires f < |fds|
    ensures fds[f := fds[f].(size := size)] == fds <==> fds[f].size == size
  {
  }

  lemma SameChains(chains: seq<seq<int>>, g: nat)
    requires g < |chains|
    ensures chains[g := chains[g] + []] == chains
  {
    assert chains[g] + [] == chains[g];
  }

  /** Files that grow leave the open table in order. */
  lemma OpenGrown(open: seq<OpenedFile>, used: int, fds: seq<FileDescriptor>, count: int, g: nat, fds': seq<FileDescriptor>)
    requires OpenTable(open, used, fds, count) && g < |fds| == |fds'| && fds'[g].size >= fds[g].size
    requires fds' == fds[g := fds'[g]]
    ensures OpenTable(open, used, fds', count)
  {
  }

  // ---------------------------------------------------------------- after a delete

  lemma NotYet(fat: seq<int>, chains: seq<seq<int>>, f: nat, k: nat, fat': seq<int>)
    requires Partition(fat, chains) && f < |chains| && k < |chains[f]| && Clearing(fat, fat', chains[f], k)
    ensures 0 <= chains[f][k] < |fat| && fat'[chains[f][k]] == fat[chains[f][k]]
  {
  }

  lemma Cleared(fat: seq<int>, fat': seq<int>, l: seq<int>)
    requires Clearing(fat, fat', l, |l|)
    ensures forall b :: 0 <= b < |fat| ==> fat'[b] == if b in l then FREE_BLOCK else fat[b]
  {
  }

  lemma DeletedFirst(fat0: seq<int>, fds0: seq<FileDescriptor>, count: nat, chains: seq<seq<int>>,
                     fat: seq<int>, fds: seq<FileDescriptor>)
    requires Volume(fat0, fds0, count, chains) && 0 < count < NUM_FILES
    requires |fat| == |fat0| && |fds| == |fds0|
    requires forall b :: 0 <= b < |fat| ==> fat[b] == if b in chains[0] then FREE_BLOCK else fat0[b]
    requires forall g :: 0 <= g < count ==> fds[g] == fds0[g + 1]
    requires forall g :: count - 1 <= g < NUM_FILES ==> fds[g] == EMPTY_DESCRIPTOR
    ensures Volume(fat, fds, count - 1, chains[1..])
  {
    ChainFreed(fat0, chains, 0, fat);
    assert WithoutChain(chains, 0) == chains[1..];
    hide Partition;
    ShiftedDirectory(fds0, count, fds);
    assert Chained(fds, count - 1, chains[1..]);
  }

  lemma ShiftedDirectory(fds0: seq<FileDescriptor>, count: nat, fds: seq<FileDescriptor>)
    requires Directory(fds0, count) && 0 < count < NUM_FILES && |fds| == |fds0|
    requires forall g :: 0 <= g < count ==> fds[g] == fds0[g + 1]
    requires forall g :: count - 1 <= g < NUM_FILES ==> fds[g] == EMPTY_DESCRIPTOR
    ensures Directory(fds, count - 1)
  {
  }

  lemma TableCounts(open: seq<OpenedFile>, used: int, fds: seq<FileDescriptor>, count: int)
    requires OpenTable(open, used, fds, count)
    ensures used == CountOpen(open) && |open| == NUM_OPENED_FILES
  {
  }

  lemma {:induction false} NoneCounted(open: seq<OpenedFile>)
    requires CountOpen(open) == 0
    ensures forall i :: 0 <= i < |open| ==> open[i].idx == NO_OPENED_FILE
  {
    if open != [] { NoneCounted(open[..|open| - 1]); }
  }

  /** The open table is in order after a delete exactly when each slot left open is within the file
      that has moved to its index. */
  lemma TableAfter(open: seq<OpenedFile>, fds0: seq<FileDescriptor>, count: int, f: int, fds: seq<FileDescriptor>)
    requires OpenTable(open, CountOpen(open), fds0, count) && 0 < count < NUM_FILES == |fds| == |fds0|
    requires forall g :: 0 <= g < count ==> fds[g] == fds0[g + 1]
    ensures |open| == NUM_OPENED_FILES && forall i :: 0 <= i < |open| && open[i].idx != NO_OPENED_FILE ==> 0 <= open[i].idx < count
    ensures OpenTable(AfterClose(open, CountOpen(open), f), CountOpen(AfterClose(open, CountOpen(open), f)), fds, count - 1) <==>
              forall i :: 0 <= i < NUM_OPENED_FILES && open[i].idx != NO_OPENED_FILE && !IsClosed(open, CountOpen(open), f, i) ==>
                open[i].idx + 1 < count && open[i].offset <= fds0[open[i].idx + 1].size
  {
    var open', used := AfterClose(open, CountOpen(open), f), CountOpen(open);
    if OpenTable(open', CountOpen(open'), fds, count - 1) {
      forall i | 0 <= i < NUM_OPENED_FILES && open[i].idx != NO_OPENED_FILE && !IsClosed(open, used, f, i)
        ensures open[i].idx + 1 < count && open[i].offset <= fds0[open[i].idx + 1].size
      {
        assert open'[i] == open[i];
      }
    }
  }

  /** What a slot that stays open now denotes is another file. */
  lemma MovedOn(open: seq<OpenedFile>, fds0: seq<FileDescriptor>, count: int, f: int, fds: seq<FileDescriptor>)
    requires OpenTable(open, CountOpen(open), fds0, count) && Directory(fds0, count)
    requires count < NUM_FILES && |fds| == |fds0| && forall g :: 0 <= g < count ==> fds[g] == fds0[g + 1]
    ensures var open' := AfterClose(open, CountOpen(open), f);
            forall i :: 0 <= i < |open'| && open'[i].idx != NO_OPENED_FILE ==>
              var k := open'[i].idx; 0 <= k < count && fds[k].name != fds0[k].name
  {
  }

  lemma NameOf(fds: seq<FileDescriptor>, count: int, f: nat, g: int)
    requires Directory(fds, count) && f < count && 0 <= g < count
    ensures fds[g].name == fds[f].name <==> g == f
  {
  }

  lemma DenotesOpen(open: seq<OpenedFile>, fds: seq<FileDescriptor>, count: int, i: nat, name: string)
    requires i < |open| && count <= |fds| && Denotes(open, fds, count, i, name)
    ensures open[i].idx != NO_OPENED_FILE
  {
  }

  /** A slot closed. */
  lemma ClosedOne(open: seq<OpenedFile>, fds: seq<FileDescriptor>, count: int, i: nat)
    requires OpenTable(open, CountOpen(open), fds, count) && i < |open| && open[i].idx != NO_OPENED_FILE
    ensures OpenTable(open[i := OpenedFile(NO_OPENED_FILE, 0)], CountOpen(open) - 1, fds, count)
  {
    CountOpenUpdate(open, i, OpenedFile(NO_OPENED_FILE, 0));
  }

  lemma SlotIn(open: seq<OpenedFile>, used: int, fds: seq<FileDescriptor>, count: int, f: nat)
    requires OpenTable(open, used, fds, count) && f < |open| && open[f].idx != NO_OPENED_FILE
    ensures 0 <= open[f].idx < count && 0 <= open[f].offset <= fds[open[f].idx].size
  {
  }

  /** Moving one slot's offset. */
  lemma Moved(open: seq<OpenedFile>, used: int, fds: seq<FileDescriptor>, count: int, f: nat, o: int)
    requires OpenTable(open, used, fds, count) && f < |open| && 0 <= open[f].idx < count && o <= fds[open[f].idx].size
    ensures OpenTable(open[f := OpenedFile(open[f].idx, o)], used, fds, count) <==> o >= 0
  {
    CountOpenUpdate(open, f, OpenedFile(open[f].idx, o));
    assert open[f := OpenedFile(open[f].idx, o)][f].offset == o;
  }
}
