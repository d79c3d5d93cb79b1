/** Runs of the memory manager: allocation, freeing, processes taking and giving up their data
    blocks, and swapping. Every event of alloc.c preserves one invariant. */
module MemoryRuns {
  import opened HoleList
  import opened MemorySpec

  const LOW_USER := 2

  datatype Flag = IN_USE | WAITING | PAUSED | SIGSUSPENDED | TRACED | REPLY | ONSWAP | SWAPIN

  /** data is the process's data segment: mp_seg[D].mem_phys, and the size swapping computes. */
  datatype Proc = Proc(mp_flags: set<Flag>, data: Block, mp_swapq: int)

  /** others: the blocks handed out by alloc_mem that are not a process's data. */
  datatype Memory = Memory(holes: seq<Block>, procs: seq<Proc>, outswap: int, swapBase: nat, others: seq<Block>)

  ghost function DataOf(p: Proc): Block {
    if IN_USE in p.mp_flags then p.data else Block(0, 0)
  }

  ghost function Datas(ps: seq<Proc>): (ds: seq<Block>)
    ensures |ds| == |ps| && forall i :: 0 <= i < |ps| ==> ds[i] == DataOf(ps[i])
  {
    seq(|ps|, i requires 0 <= i < |ps| => DataOf(ps[i]))
  }

  ghost function Live(m: Memory): seq<Block> {
    Datas(m.procs) + m.others
  }

  ghost predicate ProcOk(p: Proc, swapBase: nat) {
    if IN_USE in p.mp_flags then
      && p.data.len > 0
      && (ONSWAP in p.mp_flags <==> p.data.base >= swapBase)
      && (SWAPIN in p.mp_flags ==> ONSWAP in p.mp_flags)
    else p.mp_flags == {}
  }

  /** The click just below the swap area belongs to nobody, so nothing can reach across it. */
  ghost predicate Inv(m: Memory, mem: set<int>) {
    && Partition(m.holes, Live(m), mem)
    && m.swapBase > 0 && m.swapBase - 1 !in mem
    && (forall i :: 0 <= i < |m.procs| ==> ProcOk(m.procs[i], m.swapBase))
    && LOW_USER <= m.outswap < |m.procs|
  }

  // ---------------------------------------------------------------- choosing a victim

  predicate Candidate(p: Proc) {
    p.mp_flags * {PAUSED, WAITING, SIGSUSPENDED} != {} && p.mp_flags * {TRACED, REPLY, ONSWAP} == {}
  }

  predicate Eligible(m: Memory, i: int) {
    && LOW_USER <= i < |m.procs| && Candidate(m.procs[i])
    && SwapRoom(m.holes, m.procs[i].data.len, m.swapBase)
  }

  /** How many slots swap_out passes before it looks at slot i; the last victim comes last. */
  function Rank(outswap: int, i: int, n: nat): int {
    if i > outswap then i - outswap - 1 else i - outswap - 1 + n - LOW_USER
  }

  ghost predicate IsVictim(m: Memory, v: int) {
    && Eligible(m, v)
    && forall i :: Eligible(m, i) ==> Rank(m.outswap, v, |m.procs|) <= Rank(m.outswap, i, |m.procs|)
  }

  // ---------------------------------------------------------------- events

  datatype Event =
    | Alloc(worstFit: bool, clicks: nat, k: nat)  // alloc_mem bites hole k
    | Release(i: nat)                             // free_mem of a block handed out earlier
    | Adopt(i: nat, p: nat, flags: set<Flag>)     // a new process takes block i as its data
    | Abandon(p: nat)                             // an exiting process gives its data block up
    | Mark(p: nat, flags: set<Flag>)              // the rest of MM changes a process's flags
    | Link(p: nat, next: int)                     // p's link in the swap-in queue is rewritten
    | SwapOut(p: nat, k: nat)                     // swap_out moves p's data to swap hole k
    | SwapIn(worstFit: bool, p: nat, k: nat)      // swap_in moves p's data to memory hole k

  ghost predicate Legal(m: Memory, e: Event) {
    match e
    case Alloc(w, clicks, k) => Chosen(w, m.holes, clicks, m.swapBase, k)
    case Release(i) => i < |m.others|
    case Adopt(i, p, flags) =>
      && i < |m.others| && p < |m.procs| && m.procs[p].mp_flags == {}
      && m.others[i].len > 0 && m.others[i].base < m.swapBase
      && IN_USE in flags && ONSWAP !in flags && SWAPIN !in flags
    case Abandon(p) => p < |m.procs| && IN_USE in m.procs[p].mp_flags
    case Mark(p, flags) =>
      && p < |m.procs| && IN_USE in m.procs[p].mp_flags && IN_USE in flags
      && (ONSWAP in flags <==> ONSWAP in m.procs[p].mp_flags)
      && (SWAPIN in flags ==> ONSWAP in flags)
    case Link(p, _) => p < |m.procs|
    case SwapOut(p, k) =>
      IsVictim(m, p) && IsSwapHole(m.holes, m.procs[p].data.len, m.swapBase, k)
    case SwapIn(w, p, k) =>
      && p < |m.procs| && SWAPIN in m.procs[p].mp_flags
      && Chosen(w, m.holes, m.procs[p].data.len, m.swapBase, k)
  }

  /** Move p's data into hole k: allocate the new block, then free the old one. */
  function Relocate(m: Memory, p: nat, k: nat, flags: set<Flag>): Memory
    requires p < |m.procs| && k < |m.holes| && m.procs[p].data.len <= m.holes[k].len
  {
    var old_block := m.procs[p].data;
    m.(holes := Free(Take(m.holes, k, old_block.len), old_block),
       procs := m.procs[p := m.procs[p].(mp_flags := flags, data := Block(m.holes[k].base, old_block.len))])
  }

  ghost function Apply(m: Memory, e: Event): Memory
    requires Legal(m, e)
  {
    match e
    case Alloc(_, clicks, k) =>
      m.(holes := Take(m.holes, k, clicks), others := m.others + [Block(m.holes[k].base, clicks)])
    case Release(i) =>
      m.(holes := Free(m.holes, m.others[i]), others := m.others[i := Block(m.others[i].base, 0)])
    case Adopt(i, p, flags) =>
      m.(procs := m.procs[p := m.procs[p].(mp_flags := flags, data := m.others[i])], others := m.others[i := Block(0, 0)])
    case Abandon(p) =>
      m.(procs := m.procs[p := m.procs[p].(mp_flags := {})], others := m.others + [m.procs[p].data])
    case Mark(p, flags) =>
      m.(procs := m.procs[p := m.procs[p].(mp_flags := flags)])
    case Link(p, next) =>
      m.(procs := m.procs[p := m.procs[p].(mp_swapq := next)])
    case SwapOut(p, k) =>
      Relocate(m, p, k, m.procs[p].mp_flags + {ONSWAP}).(outswap := p)
    case SwapIn(_, p, k) =>
      Relocate(m, p, k, m.procs[p].mp_flags - {ONSWAP, SWAPIN})
  }

  ghost predicate LegalRun(m: Memory, es: seq<Event>)
    decreases |es|, 0
  {
    es == [] || (LegalRun(m, es[..|es| - 1]) && Legal(Run(m, es[..|es| - 1]), es[|es| - 1]))
  }

  ghost function Run(m: Memory, es: seq<Event>): Memory
    requires LegalRun(m, es)
    decreases |es|, 1
  {
    if es == [] then m else Apply(Run(m, es[..|es| - 1]), es[|es| - 1])
  }

  lemma RunMore(m: Memory, es: seq<Event>, e: Event)
    requires LegalRun(m, es) && Legal(Run(m, es), e)
    ensures LegalRun(m, es + [e]) && Run(m, es + [e]) == Apply(Run(m, es), e)
  {
  }

  lemma {:induction false} RunConcat(m: Memory, es: seq<Event>, fs: seq<Event>)
    requires LegalRun(m, es) && LegalRun(Run(m, es), fs)
    ensures LegalRun(m, es + fs) && Run(m, es + fs) == Run(Run(m, es), fs)
  {
    hide Apply, Legal;
    if fs == [] {
      assert es + fs == es;
    } else {
      var n := |fs| - 1;
      RunConcat(m, es, fs[..n]);
      RunMore(m, es + fs[..n], fs[n]);
      assert es + fs == (es + fs[..n]) + [fs[n]];
    }
  }

  // ---------------------------------------------------------------- the invariant

  /** No hole straddles swap_base: it is memory, or it is swap area. */
  lemma NoStraddle(m: Memory, mem: set<int>, k: nat)
    requires Inv(m, mem) && k < |m.holes|
    ensures m.holes[k].End() < m.swapBase || m.holes[k].base >= m.swapBase
  {
  }

  lemma UpdateSecond<T>(a: seq<T>, b: seq<T>, i: nat, x: T)
    requires i < |b|
    ensures a + b[i := x] == (a + b)[|a| + i := x]
  {
  }

  /** Handing block i over to the empty entry j. */
  lemma Transfer(hs: seq<Block>, live: seq<Block>, mem: set<int>, i: nat, j: nat)
    requires Partition(hs, live, mem) && i < |live| && j < |live| && i != j && live[j].len == 0
    ensures forall e: Block :: e.len == 0 ==> Partition(hs, live[j := live[i]][i := e], mem)
  {
    forall e: Block | e.len == 0
      ensures Partition(hs, live[j := live[i]][i := e], mem)
    {
      var b, mid := live[i], live[i := e];
      Replaced(live, i, e);
      assert mid[j] == live[j];
      forall x | In(b, x) ensures !Covers(mid, x) && Covers(live, x) && !Covers(hs, x) {
        assert In(live[i], x);
        assert Apart(hs, live[i]);
      }
      Replaced(mid, j, b);
      assert live[j := live[i]][i := e] == mid[j := b];
      var r := mid[j := b];
      forall n | 0 <= n < |r| ensures Apart(hs, r[n]) {
        if n != i && n != j { assert r[n] == live[n]; }
        assert Apart(hs, live[n]) && Apart(hs, live[i]);
      }
    }
  }

  lemma Empty(hs: seq<Block>, live: seq<Block>, mem: set<int>, e: Block)
    requires Partition(hs, live, mem) && e.len == 0
    ensures Partition(hs, live + [e], mem)
  {
    forall x ensures Covers(live + [e], x) <==> Covers(live, x) {
      CoversConcat(live, [e], x);
      CoversOne(e, x);
    }
  }

  lemma RelocateKeeps(m: Memory, mem: set<int>, p: nat, k: nat, flags: set<Flag>)
    requires Inv(m, mem) && p < |m.procs| && IN_USE in m.procs[p].mp_flags && IN_USE in flags
    requires k < |m.holes| && m.procs[p].data.len <= m.holes[k].len
    requires ONSWAP in flags <==> m.holes[k].base >= m.swapBase
    requires SWAPIN in flags ==> ONSWAP in flags
    ensures Inv(Relocate(m, p, k, flags), mem)
  {
    MoveKeeps(m.holes, Live(m), mem, p, k);
    var r := Relocate(m, p, k, flags);
    assert Live(r) == Live(m)[p := Block(m.holes[k].base, m.procs[p].data.len)];
  }

  /** What an invariant needs of a state whose processes and swap base have not moved. */
  lemma SameProcs(m: Memory, r: Memory, mem: set<int>)
    requires Inv(m, mem) && r.procs == m.procs && r.swapBase == m.swapBase && r.outswap == m.outswap
    requires Partition(r.holes, Live(r), mem)
    ensures Inv(r, mem)
  {
  }

  lemma ReleaseKeeps(m: Memory, mem: set<int>, i: nat)
    requires Inv(m, mem) && i < |m.others|
    ensures Inv(Apply(m, Release(i)), mem)
  {
    var n, e, r := |m.procs| + i, Block(m.others[i].base, 0), Apply(m, Release(i));
    FreeKeeps(m.holes, Live(m), mem, n);
    assert Live(m)[n] == m.others[i];
    UpdateSecond(Datas(m.procs), m.others, i, e);
    assert Live(r) == Live(m)[n := e];
    SameProcs(m, r, mem);
  }

  lemma AdoptKeeps(m: Memory, mem: set<int>, i: nat, p: nat, flags: set<Flag>)
    requires Inv(m, mem) && Legal(m, Adopt(i, p, flags))
    ensures Inv(Apply(m, Adopt(i, p, flags)), mem)
  {
    var n := |m.procs| + i;
    Transfer(m.holes, Live(m), mem, n, p);
    assert Live(Apply(m, Adopt(i, p, flags))) == Live(m)[p := Live(m)[n]][n := Block(0, 0)];
  }

  lemma AbandonKeeps(m: Memory, mem: set<int>, p: nat)
    requires Inv(m, mem) && Legal(m, Abandon(p))
    ensures Inv(Apply(m, Abandon(p)), mem)
  {
    var more := Live(m) + [Block(0, 0)];
    Empty(m.holes, Live(m), mem, Block(0, 0));
    Transfer(m.holes, more, mem, p, |Live(m)|);
    assert Live(Apply(m, Abandon(p))) == more[|Live(m)| := more[p]][p := Block(0, 0)];
  }

  lemma EventKeeps(m: Memory, mem: set<int>, e: Event)
    requires Inv(m, mem) && Legal(m, e)
    ensures Inv(Apply(m, e), mem)
  {
    match e
    case Alloc(_, clicks, k) =>
      AllocKeeps(m.holes, Live(m), mem, k, clicks);
      assert Live(Apply(m, e)) == Live(m) + [Block(m.holes[k].base, clicks)];
    case Release(i) => ReleaseKeeps(m, mem, i);
    case Adopt(i, p, flags) => AdoptKeeps(m, mem, i, p, flags);
    case Abandon(p) => AbandonKeeps(m, mem, p);
    case Mark(p, flags) => assert Live(Apply(m, e)) == Live(m);
    case Link(p, _) => assert Live(Apply(m, e)) == Live(m);
    case SwapOut(p, k) => RelocateKeeps(m, mem, p, k, m.procs[p].mp_flags + {ONSWAP});
    case SwapIn(_, p, k) => RelocateKeeps(m, mem, p, k, m.procs[p].mp_flags - {ONSWAP, SWAPIN});
  }

  // ---------------------------------------------------------------- turning swapping on

  ghost function Clicks(b: Block): (s: set<int>)
    ensures forall x :: x in s <==> In(b, x)
  {
    set x | b.base <= x < b.End() && In(b, x)
  }

  /** No swap area yet: all of memory lies below swap_base. */
  ghost predicate NoSwap(m: Memory, mem: set<int>) {
    forall x :: x in mem ==> x < m.swapBase
  }

  /** free_mem of the swap area. */
  ghost function SwapOn(m: Memory, size: nat): Memory {
    m.(holes := Free(m.holes, Block(m.swapBase, size)))
  }

  /** Clicks that belong to nobody, added as a hole. */
  lemma FreeNew(hs: seq<Block>, live: seq<Block>, mem: set<int>, b: Block)
    requires Partition(hs, live, mem) && forall x :: In(b, x) ==> x !in mem
    ensures Partition(Free(hs, b), live, mem + Clicks(b))
  {
    FreeCanonical(hs, b);
    forall x ensures Covers(Free(hs, b), x) <==> Covers(hs, x) || In(b, x) { FreeCovers(hs, b, x); }
    forall i | 0 <= i < |live| ensures Apart(Free(hs, b), live[i]) {
      assert Apart(hs, live[i]);
      forall x | In(live[i], x) ensures !In(b, x) { assert Covers(live, x); }
    }
  }

  /** swap_on keeps the invariant, and the swap area is a hole of its own behind all others. */
  lemma SwapOnKeeps(m: Memory, mem: set<int>, size: nat)
    requires Inv(m, mem) && NoSwap(m, mem)
    ensures Inv(SwapOn(m, size), mem + Clicks(Block(m.swapBase, size)))
    ensures size > 0 ==> SwapOn(m, size).holes == m.holes + [Block(m.swapBase, size)]
  {
    var area := Block(m.swapBase, size);
    FreeNew(m.holes, Live(m), mem, area);
    assert Live(SwapOn(m, size)) == Live(m);
    if size > 0 { LastHole(m, mem, area); }
  }

  lemma LastHole(m: Memory, mem: set<int>, area: Block)
    requires Inv(m, mem) && NoSwap(m, mem) && area.base == m.swapBase && area.len > 0
    ensures Free(m.holes, area) == m.holes + [area]
  {
    var hs := m.holes + [area];
    forall k | 0 <= k < |m.holes| ensures m.holes[k].End() < m.swapBase {
      NoStraddle(m, mem, k);
      assert In(m.holes[k], m.holes[k].base);
      assert Covers(m.holes, m.holes[k].base);
    }
    FreeCanonical(m.holes, area);
    forall x ensures Covers(Free(m.holes, area), x) <==> Covers(hs, x) {
      FreeCovers(m.holes, area, x);
      CoversConcat(m.holes, [area], x);
      CoversOne(area, x);
    }
    CanonicalUnique(Free(m.holes, area), hs);
  }

  // ---------------------------------------------------------------- runs

  /** In every run: sorted separate holes, no click owned twice, ONSWAP exactly above swap_base. */
  lemma {:induction false} RunKeeps(m: Memory, mem: set<int>, es: seq<Event>)
    requires Inv(m, mem) && LegalRun(m, es)
    ensures Inv(Run(m, es), mem)
  {
    if es != [] {
      var before := es[..|es| - 1];
      RunKeeps(m, mem, before);
      EventKeeps(Run(m, before), mem, es[|es| - 1]);
    }
  }

  /** Swapping may be turned on at any time, and any run may follow. */
  lemma SwapRunKeeps(m: Memory, mem: set<int>, before: seq<Event>, size: nat, es: seq<Event>)
    requires Inv(m, mem) && NoSwap(m, mem) && LegalRun(m, before) && LegalRun(SwapOn(Run(m, before), size), es)
    ensures Inv(Run(SwapOn(Run(m, before), size), es), mem + Clicks(Block(m.swapBase, size)))
  {
    RunKeeps(m, mem, before);
    SwapBaseFixed(m, before);
    SwapOnKeeps(Run(m, before), mem, size);
    RunKeeps(SwapOn(Run(m, before), size), mem + Clicks(Block(m.swapBase, size)), es);
  }

  /** A block returned at any time lies in memory below the swap area and meets no live block. */
  lemma AllocIsFresh(m: Memory, mem: set<int>, es: seq<Event>, worstFit: bool, clicks: nat, k: nat)
    requires Inv(m, mem) && LegalRun(m, es) && Legal(Run(m, es), Alloc(worstFit, clicks, k))
    ensures var now := Run(m, es);
            var got := Block(now.holes[k].base, clicks);
            && got.End() < m.swapBase
            && (forall x :: In(got, x) ==> x in mem && !Covers(Live(now), x))
  {
    var now := Run(m, es);
    RunKeeps(m, mem, es);
    SwapBaseFixed(m, es);
    NoStraddle(now, mem, k);
    forall x | In(Block(now.holes[k].base, clicks), x)
      ensures x in mem && !Covers(Live(now), x)
    {
      assert In(now.holes[k], x);
      forall i | 0 <= i < |Live(now)| ensures !In(Live(now)[i], x) { assert Apart(now.holes, Live(now)[i]); }
    }
  }

  lemma ApplyFixes(m: Memory, e: Event)
    requires Legal(m, e)
    ensures Apply(m, e).swapBase == m.swapBase && |Apply(m, e).procs| == |m.procs|
  {
  }

  lemma {:induction false} SwapBaseFixed(m: Memory, es: seq<Event>)
    requires LegalRun(m, es)
    ensures Run(m, es).swapBase == m.swapBase && |Run(m, es).procs| == |m.procs|
  {
    if es != [] {
      SwapBaseFixed(m, es[..|es| - 1]);
      ApplyFixes(Run(m, es[..|es| - 1]), es[|es| - 1]);
    }
  }

  // ---------------------------------------------------------------- runs of swapping

  /** Only what swap_in does: processes moving in and out, and queue links. */
  ghost predicate OnlySwaps(es: seq<Event>) {
    forall i :: 0 <= i < |es| ==> es[i].SwapIn? || es[i].SwapOut? || es[i].Link?
  }

  ghost predicate Arrived(es: seq<Event>, p: int) {
    exists i :: 0 <= i < |es| && es[i].SwapIn? && es[i].p == p
  }

  datatype Move = NotMoved | MovedIn | MovedOut

  /** The last move of p in a run. */
  function LastMove(es: seq<Event>, p: int): Move {
    if es == [] then NotMoved
    else
      var e := es[|es| - 1];
      if e.SwapIn? && e.p == p then MovedIn
      else if e.SwapOut? && e.p == p then MovedOut
      else LastMove(es[..|es| - 1], p)
  }

  /** alloc_mem for this many clicks has to answer NO_MEM: no hole is big enough, and nobody can be
      swapped out. */
  ghost predicate NoMemory(m: Memory, clicks: nat) {
    NoneUsable(m.holes, clicks, m.swapBase) && forall i :: !Eligible(m, i)
  }

  /** At some time of the run p could not be brought in. */
  ghost predicate Refused(m: Memory, es: seq<Event>, p: int) {
    0 <= p < |m.procs| && exists n :: 0 <= n <= |es| && LegalRun(m, es[..n]) && NoMemory(Run(m, es[..n]), m.procs[p].data.len)
  }

  /** What a run of swapping leaves of process p: its length, and all its flags but the two of swapping;
      it wants in no longer exactly when it came in, and is on swap as its last move says. */
  ghost predicate SwappedOnly(m: Memory, es: seq<Event>, r: Memory, p: int)
    requires 0 <= p < |m.procs| == |r.procs|
  {
    var f, f' := m.procs[p].mp_flags, r.procs[p].mp_flags;
    && r.procs[p].data.len == m.procs[p].data.len && f' - {ONSWAP, SWAPIN} == f - {ONSWAP, SWAPIN}
    && (SWAPIN in f' <==> SWAPIN in f && !Arrived(es, p))
    && (ONSWAP in f' <==> if LastMove(es, p) == NotMoved then ONSWAP in f else LastMove(es, p) == MovedOut)
  }

  lemma {:induction false} SwapRun(m: Memory, es: seq<Event>, p: int)
    requires LegalRun(m, es) && OnlySwaps(es) && 0 <= p < |m.procs|
    ensures |Run(m, es).procs| == |m.procs| && SwappedOnly(m, es, Run(m, es), p)
  {
    if es != [] {
      var n := |es| - 1;
      SwapRun(m, es[..n], p);
      ArrivedMore(es[..n], es[n], p);
      assert es == es[..n] + [es[n]];
      SwapStep(m, es[..n], Run(m, es[..n]), es[n], p);
    }
  }

  lemma ArrivedMore(es: seq<Event>, e: Event, p: int)
    ensures Arrived(es + [e], p) <==> Arrived(es, p) || (e.SwapIn? && e.p == p)
    ensures LastMove(es + [e], p) ==
            if e.SwapIn? && e.p == p then MovedIn else if e.SwapOut? && e.p == p then MovedOut else LastMove(es, p)
  {
    var more := es + [e];
    assert more[..|es|] == es && more[|es|] == e;
    if Arrived(es, p) {
      var i :| 0 <= i < |es| && es[i].SwapIn? && es[i].p == p;
      assert more[i].SwapIn? && more[i].p == p;
    }
  }

  lemma SwapStep(m: Memory, es: seq<Event>, r: Memory, e: Event, p: int)
    requires 0 <= p < |m.procs| == |r.procs| && SwappedOnly(m, es, r, p) && Legal(r, e)
    requires e.SwapIn? || e.SwapOut? || e.Link?
    requires Arrived(es + [e], p) <==> Arrived(es, p) || (e.SwapIn? && e.p == p)
    requires LastMove(es + [e], p) ==
             if e.SwapIn? && e.p == p then MovedIn else if e.SwapOut? && e.p == p then MovedOut else LastMove(es, p)
    ensures |Apply(r, e).procs| == |r.procs| && SwappedOnly(m, es + [e], Apply(r, e), p)
  {
    hide Arrived, LastMove, Free, Take, Chosen, IsVictim, IsSwapHole;
    ApplyFixes(r, e);
    if e.SwapIn? && e.p == p { ChosenBounds(r, e); }
  }

  lemma ChosenBounds(m: Memory, e: Event)
    requires Legal(m, e) && e.SwapIn?
    ensures e.p < |m.procs| && e.k < |m.holes| && m.procs[e.p].data.len <= m.holes[e.k].len
  {
  }

  lemma RefusedMore(m: Memory, es: seq<Event>, more: seq<Event>, p: int)
    requires Refused(m, es, p)
    ensures Refused(m, es + more, p)
  {
    var n :| 0 <= n <= |es| && LegalRun(m, es[..n]) && NoMemory(Run(m, es[..n]), m.procs[p].data.len);
    assert (es + more)[..n] == es[..n];
  }

  lemma RefusedNow(m: Memory, es: seq<Event>, p: int)
    requires LegalRun(m, es) && 0 <= p < |m.procs| && NoMemory(Run(m, es), m.procs[p].data.len)
    ensures Refused(m, es, p)
  {
    assert es[..|es|] == es;
  }

  lemma ArrivedIn(es: seq<Event>, more: seq<Event>, p: int)
    requires Arrived(es, p) || Arrived(more, p)
    ensures Arrived(es + more, p)
  {
    var all := es + more;
    if Arrived(es, p) {
      var i :| 0 <= i < |es| && es[i].SwapIn? && es[i].p == p;
      assert all[i].SwapIn? && all[i].p == p;
    } else {
      var i :| 0 <= i < |more| && more[i].SwapIn? && more[i].p == p;
      assert all[|es| + i].SwapIn? && all[|es| + i].p == p;
    }
  }

  // ---------------------------------------------------------------- swapping ends

  function Resident(ps: seq<Proc>): nat {
    if ps == [] then 0
    else Resident(ps[..|ps| - 1]) + if ONSWAP in ps[|ps| - 1].mp_flags then 0 else 1
  }

  lemma {:induction false} ResidentUpdate(ps: seq<Proc>, i: nat, p: Proc)
    requires i < |ps|
    ensures Resident(ps[i := p]) == Resident(ps) - (if ONSWAP in ps[i].mp_flags then 0 else 1)
                                    + (if ONSWAP in p.mp_flags then 0 else 1)
  {
    var m := |ps| - 1;
    if i < m {
      ResidentUpdate(ps[..m], i, p);
      assert ps[i := p][..m] == ps[..m][i := p];
    } else {
      assert ps[i := p][..m] == ps[..m];
    }
  }

  /** The measure of alloc_mem's outer loop: each success leaves one process fewer in memory. */
  lemma SwapOutShrinks(m: Memory, p: nat, k: nat)
    requires Legal(m, SwapOut(p, k))
    ensures Resident(Apply(m, SwapOut(p, k)).procs) == Resident(m.procs) - 1
  {
    var flags := m.procs[p].mp_flags + {ONSWAP};
    var r := Relocate(m, p, k, flags);
    assert ONSWAP !in m.procs[p].mp_flags by { assert ONSWAP !in m.procs[p].mp_flags * {TRACED, REPLY, ONSWAP}; }
    ResidentUpdate(m.procs, p, r.procs[p]);
  }

  /** swap_out starts behind its last victim: that one comes last in the next round, and is taken again
      only if nobody else can be. */
  lemma LastVictimIsLast(m: Memory, p: nat, k: nat)
    requires Legal(m, SwapOut(p, k)) && m.outswap < |m.procs|
    ensures var r := Apply(m, SwapOut(p, k));
            && |r.procs| == |m.procs|
            && (forall i :: LOW_USER <= i < |r.procs| && i != p ==> Rank(r.outswap, i, |r.procs|) < Rank(r.outswap, p, |r.procs|))
            && (forall v, i :: IsVictim(r, v) && Eligible(r, i) && i != p ==> v != p)
  {
    ApplyFixes(m, SwapOut(p, k));
  }

  /** Fragmentation over whole runs: the table is never full while it has a slot for every live
      block and every end of a stretch of memory. */
  lemma TableNeverFull(m: Memory, mem: set<int>, es: seq<Event>, nrHoles: nat)
    requires Inv(m, mem) && LegalRun(m, es)
    requires CountNonEmpty(Live(Run(m, es))) + |Ends(mem)| < nrHoles
    ensures |Run(m, es).holes| < nrHoles
  {
    RunKeeps(m, mem, es);
    HoleBound(Run(m, es).holes, Live(Run(m, es)), mem);
  }
}
