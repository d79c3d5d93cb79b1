/** alloc_mem, swap_out, swap_in and mem_init of memory-management/src/mm/alloc.c over the real
    tables, proved to be runs of the events of MemoryRuns. */
module MemoryManager {
  import opened Chains
  import opened HoleList
  import opened HoleTable
  import opened MemorySpec
  import opened MemoryRuns

  /** `Panic` is the kernel's "Hole table full". */
  datatype Allocated = Base(base: nat) | NoMem | Panic

  ghost function SwapLinks(ps: seq<Proc>): (next: seq<int>)
    ensures |next| == |ps| && forall i :: 0 <= i < |ps| ==> next[i] == ps[i].mp_swapq
  {
    seq(|ps|, i requires 0 <= i < |ps| => ps[i].mp_swapq)
  }

  /** The events of one alloc_mem: some swap-outs, each made because nothing fitted. */
  ghost predicate Swaps(m: Memory, clicks: nat, es: seq<Event>)
    requires LegalRun(m, es)
    decreases |es|
  {
    es == [] || (es[|es| - 1].SwapOut? && Swaps(m, clicks, es[..|es| - 1])
                 && NoneUsable(Run(m, es[..|es| - 1]).holes, clicks, m.swapBase))
  }

  /** What swap-outs leave alone in a process. */
  ghost predicate SameButMoved(ps: seq<Proc>, qs: seq<Proc>) {
    && |ps| == |qs|
    && forall i :: 0 <= i < |ps| ==>
         && ps[i].mp_swapq == qs[i].mp_swapq && ps[i].data.len == qs[i].data.len
         && (SWAPIN in ps[i].mp_flags <==> SWAPIN in qs[i].mp_flags)
  }

  /** Fewer live blocks than this, and a free_mem cannot find the hole table full. */
  ghost predicate TableCrowded(m: Memory, mem: set<int>, nrHoles: nat) {
    CountNonEmpty(Live(m)) + |Ends(mem)| >= nrHoles
  }

  lemma {:induction false} CountUpdate(live: seq<Block>, i: nat, b: Block)
    requires i < |live| && b.len == live[i].len
    ensures CountNonEmpty(live[i := b]) == CountNonEmpty(live)
  {
    var n := |live| - 1;
    if i < n {
      CountUpdate(live[..n], i, b);
      assert live[i := b][..n] == live[..n][i := b];
    } else {
      assert live[i := b][..n] == live[..n];
    }
  }

  /** Between the two halves of a move there is one live block more, so one hole more at most. */
  lemma CrowdedWhenFull(m: Memory, mem: set<int>, k: nat, clicks: nat)
    requires Inv(m, mem) && k < |m.holes| && 0 < clicks <= m.holes[k].len
    ensures |Take(m.holes, k, clicks)| <= CountNonEmpty(Live(m)) + 1 + |Ends(mem)|
  {
    var b := Block(m.holes[k].base, clicks);
    AllocKeeps(m.holes, Live(m), mem, k, clicks);
    HoleBound(Take(m.holes, k, clicks), Live(m) + [b], mem);
    assert (Live(m) + [b])[..|Live(m)|] == Live(m);
  }

  function Sizes(bs: seq<Block>): nat {
    if bs == [] then 0 else Sizes(bs[..|bs| - 1]) + bs[|bs| - 1].len
  }

  /** The hole list after freeing the first i chunks. */
  ghost predicate HoldsChunks(hs: seq<Block>, chunks: seq<Block>, i: nat)
    requires i <= |chunks|
  {
    Canonical(hs) && |hs| <= i && forall x :: Covers(hs, x) <==> Covers(chunks[..i], x)
  }

  ghost predicate AllBelow(chunks: seq<Block>, i: nat, top: nat) {
    forall j :: 0 <= j < i && j < |chunks| ==> chunks[j].End() <= top
  }

  lemma NextBelow(chunks: seq<Block>, i: nat, top: nat)
    requires i < |chunks| && AllBelow(chunks, i, top)
    ensures AllBelow(chunks, i + 1, if top < chunks[i].End() then chunks[i].End() else top)
    ensures Sizes(chunks[..i + 1]) == Sizes(chunks[..i]) + chunks[i].len
  {
    assert chunks[..i + 1][..i] == chunks[..i];
  }

  lemma HoldsLength(hs: seq<Block>, chunks: seq<Block>, i: nat)
    requires i <= |chunks| && HoldsChunks(hs, chunks, i)
    ensures |hs| <= i
  {
  }

  lemma NextChunk(hs: seq<Block>, chunks: seq<Block>, i: nat)
    requires i < |chunks| && PairwiseApart(chunks) && HoldsChunks(hs, chunks, i)
    ensures HoldsChunks(Free(hs, chunks[i]), chunks, i + 1)
  {
    var b := chunks[i];
    forall x | In(b, x)
      ensures !Covers(chunks[..i], x)
    {
      assert forall j :: 0 <= j < i ==> chunks[..i][j] == chunks[j];
    }
    assert Apart(hs, b);
    FreeCanonical(hs, b);
    FreeLength(hs, b);
    forall x ensures Covers(Free(hs, b), x) <==> Covers(chunks[..i + 1], x) {
      FreeCovers(hs, b, x);
      assert chunks[..i + 1] == chunks[..i] + [b];
      CoversConcat(chunks[..i], [b], x);
      CoversOne(b, x);
    }
  }

  lemma NoChunks(chunks: seq<Block>)
    ensures HoldsChunks([], chunks, 0) && AllBelow(chunks, 0, 0) && Sizes(chunks[..0]) == 0
  {
  }

  lemma AllChunks(m: Memory, mem: set<int>, chunks: seq<Block>)
    requires HoldsChunks(m.holes, chunks, |chunks|) && m.swapBase > 0 && AllBelow(chunks, |chunks|, m.swapBase - 1)
    requires mem == set x | 0 <= x < m.swapBase && Covers(chunks, x)
    requires m.others == [] && forall i :: 0 <= i < |m.procs| ==> m.procs[i].mp_flags == {}
    requires LOW_USER <= m.outswap < |m.procs|
    ensures Inv(m, mem) && chunks[..|chunks|] == chunks
    ensures forall x :: x in mem <==> Covers(chunks, x)
    ensures forall x :: Covers(m.holes, x) <==> Covers(chunks, x)
    ensures forall i :: 0 <= i < |chunks| ==> chunks[i].End() < m.swapBase
  {
  }

  // ---------------------------------------------------------------- the swap-in queue

  /** The processes of a queue that still want to come in, in order. */
  ghost function Keep(q: seq<int>, ps: seq<Proc>): seq<int>
    requires forall i :: 0 <= i < |q| ==> 0 <= q[i] < |ps|
  {
    if q == [] then []
    else Keep(q[..|q| - 1], ps) + if SWAPIN in ps[q[|q| - 1]].mp_flags then [q[|q| - 1]] else []
  }

  ghost predicate InRange(q: seq<int>, n: nat) {
    forall i :: 0 <= i < |q| ==> 0 <= q[i] < n
  }

  lemma {:induction false} KeepSame(q: seq<int>, ps: seq<Proc>, qs: seq<Proc>)
    requires InRange(q, |ps|) && |ps| == |qs|
    requires forall i :: 0 <= i < |q| ==> (SWAPIN in ps[q[i]].mp_flags <==> SWAPIN in qs[q[i]].mp_flags)
    ensures Keep(q, ps) == Keep(q, qs)
  {
    if q != [] { KeepSame(q[..|q| - 1], ps, qs); }
  }

  /** The queue of swap_in when it has dealt with the first i of its entries. */
  ghost predicate Served(q: seq<int>, old_q: seq<int>, i: nat, ps: seq<Proc>)
  {
    && i <= |old_q| && InRange(old_q, |ps|) && Distinct(old_q)
    && q == Keep(old_q[..i], ps) + old_q[i..]
  }

  /** How far the entries kept so far reach. */
  ghost function Kept(old_q: seq<int>, i: nat, ps: seq<Proc>): seq<int>
    requires i <= |old_q| && InRange(old_q, |ps|)
  {
    Keep(old_q[..i], ps)
  }

  lemma ServedNext(q: seq<int>, old_q: seq<int>, i: nat, ps: seq<Proc>)
    requires Served(q, old_q, i, ps) && i < |old_q|
    ensures var c := |Kept(old_q, i, ps)|;
            && c < |q| && q[c] == old_q[i] && 0 <= q[c] < |ps|
            && (if SWAPIN in ps[old_q[i]].mp_flags
                then Served(q, old_q, i + 1, ps) && Kept(old_q, i + 1, ps) == Kept(old_q, i, ps) + [old_q[i]]
                else Served(Without(q, c), old_q, i + 1, ps) && Kept(old_q, i + 1, ps) == Kept(old_q, i, ps))
  {
    assert old_q[..i + 1][..i] == old_q[..i];
    assert old_q[i..] == [old_q[i]] + old_q[i + 1..];
    var kept := Kept(old_q, i, ps);
    assert Without(kept + old_q[i..], |kept|) == kept + old_q[i + 1..];
  }

  lemma ServedSame(q: seq<int>, old_q: seq<int>, i: nat, ps: seq<Proc>, qs: seq<Proc>)
    requires Served(q, old_q, i, ps) && |ps| == |qs|
    requires forall j :: 0 <= j < i ==> (SWAPIN in ps[old_q[j]].mp_flags <==> SWAPIN in qs[old_q[j]].mp_flags)
    ensures Served(q, old_q, i, qs) && Kept(old_q, i, qs) == Kept(old_q, i, ps)
  {
    KeepSame(old_q[..i], ps, qs);
  }

  lemma WithoutDistinct(q: seq<int>, k: nat)
    requires Distinct(q) && k < |q|
    ensures Distinct(Without(q, k))
  {
  }

  lemma StartServed(q: seq<int>, ps: seq<Proc>, head: int)
    requires Chain(SwapLinks(ps), head, q) && Distinct(q)
    ensures Standing(ps, head, q, q, 0, NIL)
  {
  }

  ghost function Before(q: seq<int>, c: int): int {
    if 0 < c <= |q| then q[c - 1] else NIL
  }

  /** swap_in's loop stands at entry i of the queue q0 it started with, just behind `prev`. */
  ghost predicate Standing(ps: seq<Proc>, head: int, q: seq<int>, q0: seq<int>, i: nat, prev: int) {
    && Chain(SwapLinks(ps), head, q) && Distinct(q) && Served(q, q0, i, ps)
    && prev == Before(q, |Kept(q0, i, ps)|)
  }

  lemma StandingAt(ps: seq<Proc>, head: int, q: seq<int>, q0: seq<int>, i: nat, prev: int)
    requires Standing(ps, head, q, q0, i, prev)
    ensures i <= |q0| && InRange(q0, |ps|) && Distinct(q0) && (i < |q0| ==> 0 <= q0[i])
    ensures prev == NIL || 0 <= prev < |ps|
    ensures (if prev == NIL then head else ps[prev].mp_swapq) == if i < |q0| then q0[i] else NIL
    ensures i < |q0| ==> var c := |Kept(q0, i, ps)|;
              c < |q| && q[c] == q0[i] && if c == 0 then prev == NIL else prev == q[c - 1]
    ensures i == |q0| ==> q == Keep(q0, ps)
  {
    var c := |Kept(q0, i, ps)|;
    if i < |q0| {
      ServedNext(q, q0, i, ps);
    } else {
      assert q0[..i] == q0 && q0[i..] == [];
    }
    if 0 < c {
      assert q[c - 1] == Kept(q0, i, ps)[c - 1];
      assert SwapLinks(ps)[q[c - 1]] == After(q, c - 1, NIL);
    }
  }

  lemma KeptStanding(ps: seq<Proc>, head: int, q: seq<int>, q0: seq<int>, i: nat, prev: int)
    requires Standing(ps, head, q, q0, i, prev) && i < |q0| && 0 <= q0[i] < |ps| && SWAPIN in ps[q0[i]].mp_flags
    ensures Standing(ps, head, q, q0, i + 1, q0[i])
  {
    ServedNext(q, q0, i, ps);
  }

  lemma DroppedStanding(ps: seq<Proc>, qs: seq<Proc>, head: int, q: seq<int>, q0: seq<int>, i: nat, prev: int, head': int)
    requires Standing(ps, head, q, q0, i, prev) && i < |q0| && 0 <= q0[i] < |ps| && SWAPIN !in ps[q0[i]].mp_flags
    requires |ps| == |qs| && forall j :: 0 <= j < |ps| ==> qs[j].mp_flags == ps[j].mp_flags
    requires |Kept(q0, i, ps)| < |q|
    requires Chain(SwapLinks(qs), head', Without(q, |Kept(q0, i, ps)|)) && Distinct(Without(q, |Kept(q0, i, ps)|))
    ensures Standing(qs, head', Without(q, |Kept(q0, i, ps)|), q0, i + 1, prev)
  {
    var c := |Kept(q0, i, ps)|;
    ServedNext(q, q0, i, ps);
    ServedSame(Without(q, c), q0, i + 1, ps, qs);
  }

  /** The link that the loop follows leads to entry i, or ends the loop with the queue as it shall be. */
  lemma NextEntry(ps: seq<Proc>, head: int, q: seq<int>, q0: seq<int>, i: nat, prev: int)
    requires Standing(ps, head, q, q0, i, prev)
    ensures prev == NIL || 0 <= prev < |ps|
    ensures var rmp := if prev == NIL then head else ps[prev].mp_swapq;
            if rmp == NIL then Chain(SwapLinks(ps), head, q) && Distinct(q) && InRange(q0, |ps|) && q == Keep(q0, ps)
            else i < |q0| && rmp == q0[i]
  {
    StandingAt(ps, head, q, q0, i, prev);
  }

  lemma StandingQueue(ps: seq<Proc>, head: int, q: seq<int>, q0: seq<int>, i: nat, prev: int)
    requires Standing(ps, head, q, q0, i, prev)
    ensures Chain(SwapLinks(ps), head, q) && Distinct(q)
  {
  }

  lemma StandingSame(ps: seq<Proc>, qs: seq<Proc>, head: int, q: seq<int>, q0: seq<int>, i: nat, prev: int, came: bool)
    requires Standing(ps, head, q, q0, i, prev) && i < |q0| && 0 <= q0[i] && CameIn(ps, qs, q0[i], came)
    ensures Standing(qs, head, q, q0, i, prev)
  {
    ServedSame(q, q0, i, ps, qs);
  }

  lemma WantsIn(m: Memory, mem: set<int>, p: nat)
    requires Inv(m, mem) && p < |m.procs| && SWAPIN in m.procs[p].mp_flags
    ensures IN_USE in m.procs[p].mp_flags && ONSWAP in m.procs[p].mp_flags
  {
  }

  /** The queue links are as they were, and so is every wish to come in, but for p's if it came. */
  ghost predicate CameIn(ps: seq<Proc>, qs: seq<Proc>, p: nat, came: bool) {
    && |ps| == |qs| && p < |ps|
    && SwapLinks(qs) == SwapLinks(ps)
    && (SWAPIN in qs[p].mp_flags <==> !came)
    && forall i :: 0 <= i < |ps| && i != p ==> (SWAPIN in ps[i].mp_flags <==> SWAPIN in qs[i].mp_flags)
  }

  lemma StayedOut(ps: seq<Proc>, qs: seq<Proc>, p: nat)
    requires SameButMoved(ps, qs) && p < |ps| && SWAPIN in ps[p].mp_flags
    ensures CameIn(ps, qs, p, false)
  {
  }

  /** alloc_mem's run, with its last event read as p moving into the memory found. */
  lemma SwapInLegal(m0: Memory, mem: set<int>, swaps: seq<Event>, now: Memory, w: bool, p: nat, k: nat)
    requires Inv(m0, mem) && LegalRun(m0, swaps) && p < |m0.procs| && SWAPIN in m0.procs[p].mp_flags
    requires var m := Run(m0, swaps);
             && Legal(m, Alloc(w, m0.procs[p].data.len, k)) && now == Apply(m, Alloc(w, m0.procs[p].data.len, k))
    requires SameButMoved(m0.procs, now.procs)
    ensures var m, e := Run(m0, swaps), SwapIn(w, p, k);
            && Inv(m, mem) && Legal(m, e) && m.procs[p].data.len == m0.procs[p].data.len
            && LegalRun(m0, swaps + [e]) && Run(m0, swaps + [e]) == Apply(m, e)
            && CameIn(m0.procs, Apply(m, e).procs, p, true)
  {
    var m, e := Run(m0, swaps), SwapIn(w, p, k);
    RunKeeps(m0, mem, swaps);
    RunMore(m0, swaps, e);
    SameLinks(m0.procs, Apply(m, e).procs);
  }

  lemma SameLinks(ps: seq<Proc>, qs: seq<Proc>)
    requires |ps| == |qs| && forall i :: 0 <= i < |ps| ==> ps[i].mp_swapq == qs[i].mp_swapq
    ensures SwapLinks(ps) == SwapLinks(qs)
  {
  }

  lemma HolesCanonical(m: Memory, mem: set<int>)
    requires Inv(m, mem)
    ensures Canonical(m.holes)
  {
  }

  lemma ChosenFits(hs: seq<Block>, clicks: nat, swapBase: nat, worstFit: bool, k: int)
    requires Chosen(worstFit, hs, clicks, swapBase, k)
    ensures 0 <= k < |hs| && clicks <= hs[k].len
  {
  }

  lemma OutswapInRange(m: Memory, mem: set<int>)
    requires Inv(m, mem)
    ensures LOW_USER <= m.outswap < |m.procs|
  {
  }

  /** rmp is the slot swap_out has come to after `seen` steps from outswap. */
  ghost predicate Seen(outswap: int, rmp: int, n: nat, seen: nat) {
    if seen == 0 then rmp == outswap else Rank(outswap, rmp, n) == seen - 1
  }

  /** The walk meets every slot once, in rank order, and is back at outswap at the very end. */
  lemma NextRank(outswap: int, rmp: int, n: nat, seen: nat)
    requires LOW_USER <= outswap < n && LOW_USER <= rmp < n && seen < n - LOW_USER
    requires Seen(outswap, rmp, n, seen)
    ensures var next := if rmp + 1 == n then LOW_USER else rmp + 1;
            && LOW_USER <= next < n && Rank(outswap, next, n) == seen && Seen(outswap, next, n, seen + 1)
            && (forall i :: LOW_USER <= i < n && Rank(outswap, i, n) == seen ==> i == next)
            && (next == outswap <==> seen + 1 == n - LOW_USER)
  {
  }

  /** The first slot that swap_out comes to and can take is the victim. */
  lemma FirstIsVictim(m: Memory, v: int, seen: nat, k: int)
    requires LOW_USER <= v < |m.procs| && Candidate(m.procs[v]) && IsSwapHole(m.holes, m.procs[v].data.len, m.swapBase, k)
    requires Rank(m.outswap, v, |m.procs|) == seen
    requires forall i :: Eligible(m, i) ==> Rank(m.outswap, i, |m.procs|) >= seen
    ensures IsVictim(m, v)
  {
  }

  /** Slot v is passed over. */
  lemma PassedOver(m: Memory, v: int, seen: nat)
    requires 0 <= v < |m.procs| && !(Candidate(m.procs[v]) && SwapRoom(m.holes, m.procs[v].data.len, m.swapBase))
    requires forall i :: Eligible(m, i) ==> Rank(m.outswap, i, |m.procs|) >= seen
    requires forall i :: LOW_USER <= i < |m.procs| && Rank(m.outswap, i, |m.procs|) == seen ==> i == v
    ensures forall i :: Eligible(m, i) ==> Rank(m.outswap, i, |m.procs|) >= seen + 1
  {
  }

  lemma VictimInUse(m: Memory, mem: set<int>, v: nat)
    requires Inv(m, mem) && IsVictim(m, v)
    ensures IN_USE in m.procs[v].mp_flags
  {
  }

  /** One more swap-out at the end of a run that still found nothing usable. */
  lemma OneMoreSwap(m: Memory, mem: set<int>, clicks: nat, es: seq<Event>, v: nat, k: nat)
    requires Inv(m, mem) && LegalRun(m, es) && Swaps(m, clicks, es) && Legal(Run(m, es), SwapOut(v, k))
    requires NoneUsable(Run(m, es).holes, clicks, m.swapBase)
    ensures var e, now := SwapOut(v, k), Run(m, es);
            && LegalRun(m, es + [e]) && Run(m, es + [e]) == Apply(now, e) && Swaps(m, clicks, es + [e])
            && Resident(Apply(now, e).procs) < Resident(now.procs)
            && SameButMoved(now.procs, Apply(now, e).procs)
            && CountNonEmpty(Live(Apply(now, e))) == CountNonEmpty(Live(now))
            && |Apply(now, e).procs| == |now.procs| && Apply(now, e).swapBase == now.swapBase
  {
    var e, now := SwapOut(v, k), Run(m, es);
    RunMore(m, es, e);
    assert (es + [e])[..|es|] == es;
    SwapOutShrinks(now, v, k);
    RunKeeps(m, mem, es);
    MovedSame(now, mem, v, k, now.procs[v].mp_flags + {ONSWAP});
  }

  lemma MovedSame(m: Memory, mem: set<int>, v: nat, k: nat, flags: set<Flag>)
    requires Inv(m, mem) && Legal(m, SwapOut(v, k)) && flags == m.procs[v].mp_flags + {ONSWAP}
    ensures SameButMoved(m.procs, Relocate(m, v, k, flags).procs)
    ensures CountNonEmpty(Live(Relocate(m, v, k, flags))) == CountNonEmpty(Live(m))
  {
    VictimInUse(m, mem, v);
    var r := Relocate(m, v, k, flags);
    assert Live(r) == Live(m)[v := r.procs[v].data];
    CountUpdate(Live(m), v, r.procs[v].data);
  }

  lemma SameTransitive(a: seq<Proc>, b: seq<Proc>, c: seq<Proc>)
    requires SameButMoved(a, b) && SameButMoved(b, c)
    ensures SameButMoved(a, c)
  {
  }

  ghost predicate OnlyLinks(es: seq<Event>) {
    |es| <= 1 && forall i :: 0 <= i < |es| ==> es[i].Link?
  }

  /** Rewriting a link undoes nothing of a round. */
  lemma RoundLinked(m: Memory, es: seq<Event>, now: Memory, links: seq<Event>, p: int)
    requires RoundFor(m, es, now, p) && LegalRun(now, links) && OnlyLinks(links)
    ensures RoundFor(m, es + links, Run(now, links), p)
  {
    RunConcat(m, es, links);
    forall i | 0 <= i < |es + links| ensures var e := (es + links)[i]; e.SwapIn? || e.SwapOut? || e.Link? {}
    if Arrived(es, p) { ArrivedIn(es, links, p); }
    if links != [] {
      assert links == [links[0]] && links[..0] == [];
      LinkKeeps(now, links[0], p);
    } else {
      assert es + links == es;
    }
  }

  lemma LinkKeeps(m: Memory, e: Event, p: int)
    requires e.Link? && Legal(m, e) && 0 <= p < |m.procs|
    ensures var r := Apply(m, e);
            && |r.procs| == |m.procs| && r.swapBase == m.swapBase && r.procs[p].mp_flags == m.procs[p].mp_flags
            && r.procs[p].data == m.procs[p].data && (NoMemory(m, m.procs[p].data.len) ==> NoMemory(r, r.procs[p].data.len))
  {
    var r := Apply(m, e);
    if NoMemory(m, m.procs[p].data.len) {
      forall i ensures !Eligible(r, i) { assert !Eligible(m, i); }
    }
  }

  lemma NothingToDo(m: Memory, p: int)
    requires 0 <= p < |m.procs| && SWAPIN !in m.procs[p].mp_flags
    ensures LegalRun(m, []) && Run(m, []) == m && RoundFor(m, [], m, p)
  {
  }

  /** What alloc_mem does is swap out. */
  lemma {:induction false} SwapsOnly(m: Memory, clicks: nat, es: seq<Event>)
    requires LegalRun(m, es) && Swaps(m, clicks, es)
    ensures forall i :: 0 <= i < |es| ==> es[i].SwapOut?
    decreases |es|
  {
    hide Apply, Legal, NoneUsable;
    if es != [] {
      var n := |es| - 1;
      SwapsOnly(m, clicks, es[..n]);
      forall i | 0 <= i < |es| ensures es[i].SwapOut? { if i < n { assert es[i] == es[..n][i]; } }
    }
  }

  /** One entry of the swap-in queue has been dealt with: it came in, or there was no memory for it. */
  ghost predicate Dealt(m: Memory, es: seq<Event>, p: int) {
    0 <= p < |m.procs| && (SWAPIN in m.procs[p].mp_flags ==> Arrived(es, p) || Refused(m, es, p))
  }

  /** And so have the first i. */
  ghost predicate AllDealt(m: Memory, es: seq<Event>, q: seq<int>, i: nat) {
    i <= |q| && forall j :: 0 <= j < i ==> Dealt(m, es, q[j])
  }

  /** What one round does for the entry p. */
  ghost predicate RoundFor(m: Memory, es: seq<Event>, now: Memory, p: int) {
    && LegalRun(m, es) && now == Run(m, es) && OnlySwaps(es) && 0 <= p < |m.procs| == |now.procs|
    && (SWAPIN in m.procs[p].mp_flags ==>
          if SWAPIN in now.procs[p].mp_flags then NoMemory(now, now.procs[p].data.len)
          else Arrived(es, p) && ONSWAP !in now.procs[p].mp_flags && now.procs[p].data.base < now.swapBase)
  }

  /** One round more. */
  lemma DealtMore(m0: Memory, es: seq<Event>, q: seq<int>, i: nat, more: seq<Event>, now: Memory)
    requires LegalRun(m0, es) && OnlySwaps(es) && AllDealt(m0, es, q, i) && i < |q| && 0 <= q[i] < |m0.procs|
    requires RoundFor(Run(m0, es), more, now, q[i])
    ensures LegalRun(m0, es + more) && now == Run(m0, es + more) && OnlySwaps(es + more) && AllDealt(m0, es + more, q, i + 1)
  {
    hide Run, LegalRun, Dealt, RoundFor;
    var p, all := q[i], es + more;
    RoundParts(Run(m0, es), more, now, p);
    RunConcat(m0, es, more);
    forall j | 0 <= j < i ensures Dealt(m0, all, q[j]) {
      assert Dealt(m0, es, q[j]);
      DealtStays(m0, es, more, q[j]);
    }
    assert Dealt(m0, all, p) by { DealtNow(m0, es, more, now, p); }
  }

  lemma RoundParts(m: Memory, es: seq<Event>, now: Memory, p: int)
    requires RoundFor(m, es, now, p)
    ensures LegalRun(m, es) && now == Run(m, es) && OnlySwaps(es)
  {
  }

  lemma RoundRefused(m: Memory, swaps: seq<Event>, now: Memory, p: nat)
    requires LegalRun(m, swaps) && now == Run(m, swaps) && p < |m.procs| && SWAPIN in m.procs[p].mp_flags
    requires Swaps(m, m.procs[p].data.len, swaps) && SameButMoved(m.procs, now.procs)
    requires NoneUsable(now.holes, m.procs[p].data.len, now.swapBase) && forall i :: !Eligible(now, i)
    ensures RoundFor(m, swaps, now, p) && p < |now.procs| && NoMemory(now, now.procs[p].data.len)
  {
    SwapsOnly(m, m.procs[p].data.len, swaps);
    assert now.procs[p].data.len == m.procs[p].data.len;
  }

  lemma RoundArrived(m: Memory, mem: set<int>, swaps: seq<Event>, e: Event, now: Memory, p: nat)
    requires LegalRun(m, swaps) && LegalRun(m, swaps + [e]) && now == Run(m, swaps + [e]) && p < |m.procs|
    requires Swaps(m, m.procs[p].data.len, swaps) && e.SwapIn? && e.p == p && Inv(now, mem) && SWAPIN in m.procs[p].mp_flags
    requires IN_USE in m.procs[p].mp_flags
    ensures RoundFor(m, swaps + [e], now, p)
  {
    SwapsOnly(m, m.procs[p].data.len, swaps);
    var es := swaps + [e];
    forall i | 0 <= i < |es| ensures es[i].SwapIn? || es[i].SwapOut? || es[i].Link? { if i < |swaps| { assert es[i] == swaps[i]; } }
    ArrivedMore(swaps, e, p);
    SwapRun(m, es, p);
    InUseStays(m, es, mem, p);
  }

  lemma DealtStays(m0: Memory, es: seq<Event>, more: seq<Event>, p: int)
    requires Dealt(m0, es, p)
    ensures Dealt(m0, es + more, p)
  {
    if Arrived(es, p) { ArrivedIn(es, more, p); }
    if Refused(m0, es, p) { RefusedMore(m0, es, more, p); }
  }

  lemma DealtNow(m0: Memory, es: seq<Event>, more: seq<Event>, now: Memory, p: int)
    requires LegalRun(m0, es) && OnlySwaps(es) && 0 <= p < |m0.procs| && RoundFor(Run(m0, es), more, now, p)
    requires LegalRun(m0, es + more) && now == Run(m0, es + more)
    ensures Dealt(m0, es + more, p)
  {
    SwapRun(m0, es, p);
    SwapRun(Run(m0, es), more, p);
    hide Run, LegalRun, NoMemory, Refused, LastMove;
    if SWAPIN in m0.procs[p].mp_flags {
      if Arrived(es, p) || Arrived(more, p) {
        ArrivedIn(es, more, p);
      } else {
        RefusedNow(m0, es + more, p);
      }
    }
  }

  /** The queue afterwards, entry by entry. An entry that wanted in is still queued only if at some time
      there was no memory for it; the others came in, and lie below swap_base unless swapped out again. */
  ghost predicate Outcome(m0: Memory, es: seq<Event>, now: Memory, p: int) {
    && 0 <= p < |m0.procs| == |now.procs|
    && (SWAPIN in m0.procs[p].mp_flags ==>
          if SWAPIN in now.procs[p].mp_flags then Refused(m0, es, p)
          else
            && Arrived(es, p) && (ONSWAP in now.procs[p].mp_flags <==> LastMove(es, p) == MovedOut)
            && (now.procs[p].data.base < now.swapBase <==> ONSWAP !in now.procs[p].mp_flags)
            && (!Candidate(m0.procs[p].(mp_flags := m0.procs[p].mp_flags - {ONSWAP, SWAPIN})) ==> ONSWAP !in now.procs[p].mp_flags))
  }

  /** A process that swap_out would not touch is not swapped out again. */
  lemma {:induction false} NotMovedOut(m: Memory, es: seq<Event>, p: int)
    requires LegalRun(m, es) && OnlySwaps(es) && 0 <= p < |m.procs| && ONSWAP in m.procs[p].mp_flags
    requires !Candidate(m.procs[p].(mp_flags := m.procs[p].mp_flags - {ONSWAP, SWAPIN}))
    ensures LastMove(es, p) != MovedOut
  {
    if es != [] {
      var n := |es| - 1;
      NotMovedOut(m, es[..n], p);
      SwapRun(m, es[..n], p);
      if es[n].SwapOut? && es[n].p == p { SameCandidate(m.procs[p], Run(m, es[..n]).procs[p]); }
    }
  }

  lemma SameCandidate(a: Proc, b: Proc)
    requires a.mp_flags - {ONSWAP, SWAPIN} == b.mp_flags - {ONSWAP, SWAPIN}
    ensures Candidate(b) ==> Candidate(a.(mp_flags := a.mp_flags - {ONSWAP, SWAPIN}))
  {
    if Candidate(b) {
      var f := a.mp_flags - {ONSWAP, SWAPIN};
      var x :| x in b.mp_flags * {PAUSED, WAITING, SIGSUSPENDED};
      assert x in b.mp_flags - {ONSWAP, SWAPIN};
      assert x in f * {PAUSED, WAITING, SIGSUSPENDED};
      forall y | y in f * {TRACED, REPLY, ONSWAP} ensures y in b.mp_flags * {TRACED, REPLY, ONSWAP} {
        assert y in b.mp_flags - {ONSWAP, SWAPIN};
      }
    }
  }

  lemma NoneDealt(m: Memory, q: seq<int>)
    ensures OnlySwaps([]) && AllDealt(m, [], q, 0)
  {
  }

  lemma EntryInTable(m0: Memory, es: seq<Event>, q0: seq<int>, i: nat, ps: seq<Proc>, head: int, q: seq<int>, prev: int)
    requires LegalRun(m0, es) && ps == Run(m0, es).procs && Standing(ps, head, q, q0, i, prev) && i < |q0|
    ensures 0 <= q0[i] < |m0.procs|
  {
    StandingAt(ps, head, q, q0, i, prev);
    SwapBaseFixed(m0, es);
  }

  lemma EveryOutcome(m0: Memory, mem: set<int>, es: seq<Event>, q0: seq<int>, i: nat, ps: seq<Proc>, head: int, q: seq<int>, prev: int)
    requires Inv(m0, mem) && LegalRun(m0, es) && OnlySwaps(es) && AllDealt(m0, es, q0, i)
    requires ps == Run(m0, es).procs && Standing(ps, head, q, q0, i, prev)
    requires (prev == NIL || 0 <= prev < |ps|) && (if prev == NIL then head else ps[prev].mp_swapq) == NIL
    ensures forall p :: p in q0 ==> Outcome(m0, es, Run(m0, es), p)
  {
    StandingAt(ps, head, q, q0, i, prev);
    forall p | p in q0 ensures Outcome(m0, es, Run(m0, es), p) { Outcomes(m0, mem, es, q0, p); }
  }

  lemma Outcomes(m0: Memory, mem: set<int>, es: seq<Event>, q: seq<int>, p: int)
    requires Inv(m0, mem) && LegalRun(m0, es) && OnlySwaps(es) && AllDealt(m0, es, q, |q|) && p in q
    ensures Outcome(m0, es, Run(m0, es), p)
  {
    var j :| 0 <= j < |q| && q[j] == p;
    assert Dealt(m0, es, q[j]);
    SwapRun(m0, es, p);
    RunKeeps(m0, mem, es);
    if SWAPIN in m0.procs[p].mp_flags {
      WantsIn(m0, mem, p);
      ArrivedMoved(es, p);
      InUseStays(m0, es, mem, p);
      if !Candidate(m0.procs[p].(mp_flags := m0.procs[p].mp_flags - {ONSWAP, SWAPIN})) { NotMovedOut(m0, es, p); }
    }
  }

  lemma InUseStays(m0: Memory, es: seq<Event>, mem: set<int>, p: int)
    requires LegalRun(m0, es) && OnlySwaps(es) && 0 <= p < |m0.procs| && IN_USE in m0.procs[p].mp_flags && Inv(Run(m0, es), mem)
    ensures |Run(m0, es).procs| == |m0.procs|
    ensures var now := Run(m0, es); now.procs[p].data.base < now.swapBase <==> ONSWAP !in now.procs[p].mp_flags
  {
    SwapRun(m0, es, p);
    var now := Run(m0, es);
    assert IN_USE in m0.procs[p].mp_flags - {ONSWAP, SWAPIN};
    assert IN_USE in now.procs[p].mp_flags - {ONSWAP, SWAPIN};
    assert ProcOk(now.procs[p], now.swapBase);
  }

  lemma {:induction false} ArrivedMoved(es: seq<Event>, p: int)
    ensures Arrived(es, p) ==> LastMove(es, p) != NotMoved
  {
    if es != [] {
      var n := |es| - 1;
      ArrivedMoved(es[..n], p);
      ArrivedMore(es[..n], es[n], p);
      assert es == es[..n] + [es[n]];
    }
  }

  lemma EmptyRun(m: Memory, clicks: nat)
    ensures LegalRun(m, []) && Run(m, []) == m && Swaps(m, clicks, []) && SameButMoved(m.procs, m.procs)
  {
  }

  class Manager {
    const table: Table
    const mproc: array<Proc>
    var swap_base: nat
    var outswap: int
    var in_queue: int
    var isWorstFit: bool
    ghost var others: seq<Block>
    ghost var mem: set<int>
    ghost var queue: seq<int>

    ghost function Mem(): Memory
      reads this, table, mproc
    {
      Memory(table.holes, mproc[..], outswap, swap_base, others)
    }

    ghost predicate Valid()
      reads this, table, table.hole, mproc
    {
      && table.Valid() && table.hole as object != mproc
      && Inv(Mem(), mem)
    }

    ghost predicate QueueOk()
      reads this, mproc
    {
      && Chain(SwapLinks(mproc[..]), in_queue, queue) && Distinct(queue)
    }

    constructor (nrHoles: nat, nrProcs: nat)
      requires nrHoles > 0 && nrProcs > LOW_USER
      ensures table.Valid() && table.holes == [] && table.hole.Length == nrHoles && mproc.Length == nrProcs
      ensures forall i :: 0 <= i < nrProcs ==> mproc[i].mp_flags == {}
      ensures swap_base == 0 && outswap == LOW_USER && in_queue == NIL && !isWorstFit
      ensures others == [] && queue == [] && table.hole as object != mproc
      ensures fresh(table) && fresh(table.hole) && fresh(mproc)
    {
      table := new Table(nrHoles);
      mproc := new Proc[nrProcs](_ => Proc({}, Block(0, 0), NIL));
      swap_base, outswap, in_queue, isWorstFit := 0, LOW_USER, NIL, false;
      others, mem, queue := [], {}, [];
    }

    /** mem_init: free every chunk the kernel reports, and put the swap area one click above them. */
    method MemInit(chunks: seq<Block>) returns (free: nat, full: bool)
      requires table.Valid() && table.holes == [] && table.hole as object != mproc
      requires forall i :: 0 <= i < mproc.Length ==> mproc[i].mp_flags == {}
      requires swap_base == 0 && LOW_USER <= outswap < mproc.Length && others == []
      requires PairwiseApart(chunks) && forall i :: 0 <= i < |chunks| ==> chunks[i].len > 0
      modifies this, table, table.hole
      ensures full ==> |chunks| > table.hole.Length
      ensures !full ==> Valid() && (forall x :: x in mem <==> Covers(chunks, x)) && NoSwap(Mem(), mem)
      ensures !full ==> (forall i :: 0 <= i < |chunks| ==> chunks[i].End() < swap_base)
      ensures !full ==> forall x :: Covers(table.holes, x) <==> Covers(chunks, x)
      ensures !full ==> free == Sizes(chunks)
    {
      NoChunks(chunks);
      hide WellLinked, HoldsChunks, AllBelow, Sizes, Free, Inv, Covers, Live;
      free, full := 0, false;
      var i := 0;
      while i < |chunks|
        invariant 0 <= i <= |chunks| && table.Valid() && HoldsChunks(table.holes, chunks, i)
        invariant unchanged(mproc) && others == [] && outswap == old(outswap)
        invariant AllBelow(chunks, i, swap_base)
        invariant free == Sizes(chunks[..i])
      {
        var b := chunks[i];
        NextBelow(chunks, i, swap_base);
        NextChunk(table.holes, chunks, i);
        HoldsLength(table.holes, chunks, i);
        full := table.FreeMem(b.base, b.len);
        if full { return; }
        free := free + b.len;
        if swap_base < b.base + b.len { swap_base := b.base + b.len; }
        i := i + 1;
      }
      swap_base := swap_base + 1;
      mem := set x | 0 <= x < swap_base && Covers(chunks, x);
      AllChunks(Mem(), mem, chunks);
    }

    /** swap_on, once the swap file is open: `size` clicks of swap area become a hole above memory. */
    method SwapOn(size: nat) returns (full: bool)
      requires Valid() && NoSwap(Mem(), mem)
      modifies this`mem, table, table.hole
      ensures full <==> size > 0 && |old(table.holes)| == table.hole.Length
      ensures !full ==> Valid() && Mem() == MemoryRuns.SwapOn(old(Mem()), size)
      ensures !full ==> mem == old(mem) + Clicks(Block(swap_base, size))
      ensures !full && size > 0 ==> table.holes == old(table.holes) + [Block(swap_base, size)]
    {
      SwapOnKeeps(Mem(), mem, size);
      full := false;
      if size > 0 {
        full := table.FreeMem(swap_base, size);
      }
      if !full { mem := mem + Clicks(Block(swap_base, size)); }
    }

    /** The second half of a move: point the process at its new block, and free the old one. */
    method Settle(p: nat, new_base: nat, flags: set<Flag>, ghost m: Memory, ghost k: nat) returns (full: bool)
      requires table.Valid() && table.hole as object != mproc && Inv(m, mem)
      requires m == Mem().(holes := m.holes) && p < mproc.Length && IN_USE in m.procs[p].mp_flags
      requires k < |m.holes| && m.procs[p].data.len <= m.holes[k].len
      requires table.holes == Take(m.holes, k, m.procs[p].data.len) && new_base == m.holes[k].base
      modifies table, table.hole, mproc
      ensures full ==> CountNonEmpty(Live(m)) + 1 + |Ends(mem)| >= table.hole.Length
      ensures !full ==> table.Valid() && Mem() == Relocate(m, p, k, flags)
    {
      var old_block := mproc[p].data;
      mproc[p] := mproc[p].(mp_flags := flags, data := Block(new_base, old_block.len));
      full := table.FreeMem(old_block.base, old_block.len);
      if full { CrowdedWhenFull(m, mem, k, old_block.len); }
    }

    /** free_mem of a block handed out earlier. */
    method FreeBlock(base: nat, clicks: nat, ghost i: nat) returns (full: bool)
      requires Valid() && i < |others| && others[i] == Block(base, clicks)
      modifies this`others, table, table.hole
      ensures full ==> TableCrowded(old(Mem()), mem, table.hole.Length)
      ensures !full ==> Valid() && Mem() == Apply(old(Mem()), Release(i))
    {
      EventKeeps(Mem(), mem, Release(i));
      HoleBound(table.holes, Live(Mem()), mem);
      full := table.FreeMem(base, clicks);
      others := others[i := Block(base, 0)];
    }

    /** swap_out's search: round the table from just after the last victim. */
    method FindVictim() returns (v: int, hp: int, prev_ptr: int, ghost k: nat)
      requires Valid()
      ensures v == NIL ==> forall i :: !Eligible(Mem(), i)
      ensures v != NIL ==> 0 <= v < mproc.Length && IsVictim(Mem(), v) && k < |table.list| && table.list[k] == hp
      ensures v != NIL ==> IsSwapHole(table.holes, mproc[v].data.len, swap_base, k)
      ensures v != NIL ==> k > 0 ==> prev_ptr == table.list[k - 1]
    {
      OutswapInRange(Mem(), mem);
      hide *;
      ghost var m, n := Mem(), mproc.Length;
      var rmp, again := outswap, true;
      ghost var seen := 0;
      while again
        invariant LOW_USER <= rmp < n && 0 <= seen <= n - LOW_USER
        invariant Seen(outswap, rmp, n, seen) && (again <==> seen < n - LOW_USER)
        invariant forall i :: Eligible(m, i) ==> Rank(outswap, i, n) >= seen
        decreases n - seen
      {
        NextRank(outswap, rmp, n, seen);
        rmp := if rmp + 1 == mproc.Length then LOW_USER else rmp + 1;
        if Candidate(mproc[rmp]) {
          hp, prev_ptr, k := table.FindSwapHole(mproc[rmp].data.len, swap_base);
          if hp != NIL_HOLE {
            v := rmp;
            FirstIsVictim(m, v, seen, k);
            return;
          }
        }
        PassedOver(m, rmp, seen);
        seen := seen + 1;
        again := rmp != outswap;
      }
      v := NIL;
      hp, prev_ptr, k := NIL, NIL, 0;
    }

    /** swap_out: move one blocked process to the swap area. */
    method SwapOutOne() returns (swapped: bool, full: bool, ghost v: nat, ghost k: nat)
      requires Valid()
      modifies this`outswap, table, table.hole, mproc
      ensures full ==> CountNonEmpty(Live(old(Mem()))) + 1 + |Ends(mem)| >= table.hole.Length
      ensures !full && !swapped ==> Valid() && Mem() == old(Mem()) && forall i :: !Eligible(Mem(), i)
      ensures !full && swapped ==> Valid() && Legal(old(Mem()), SwapOut(v, k)) && Mem() == Apply(old(Mem()), SwapOut(v, k))
    {
      hide WellLinked, Inv, Free, Take, Eligible, Rank, Candidate;
      ghost var m := Mem();
      var rmp, hp, prev_ptr;
      rmp, hp, prev_ptr, k := FindVictim();
      swapped, full, v := false, false, 0;
      if rmp == NIL { return; }
      v := rmp;
      VictimInUse(m, mem, v);
      EventKeeps(m, mem, SwapOut(v, k));
      var new_base := table.Bite(prev_ptr, hp, mproc[rmp].data.len, k);
      full := Settle(rmp, new_base, mproc[rmp].mp_flags + {ONSWAP}, m, k);
      outswap := rmp;
      swapped := true;
    }

    /** alloc_mem: bite the chosen hole; while nothing fits, swap something out and look again. */
    method AllocMem(clicks: nat) returns (r: Allocated, ghost swaps: seq<Event>, ghost k: nat)
      requires Valid()
      modifies this`outswap, this`others, table, table.hole, mproc
      ensures r.Panic? ==> CountNonEmpty(Live(old(Mem()))) + 1 + |Ends(mem)| >= table.hole.Length
      ensures !r.Panic? ==> Valid() && LegalRun(old(Mem()), swaps) && Swaps(old(Mem()), clicks, swaps)
      ensures r.Base? ==> var m := Run(old(Mem()), swaps);
                && Legal(m, Alloc(isWorstFit, clicks, k)) && r.base == m.holes[k].base
                && Mem() == Apply(m, Alloc(isWorstFit, clicks, k))
      ensures r.NoMem? ==> Mem() == Run(old(Mem()), swaps) && NoneUsable(Mem().holes, clicks, swap_base)
                           && forall i :: !Eligible(Mem(), i)
      ensures !r.Panic? ==> SameButMoved(old(mproc[..]), mproc[..])
    {
      hide WellLinked, Inv, Live, Free, Take, Swaps, Run, LegalRun, SameButMoved, Eligible, Resident, Usable,
           CountNonEmpty, Ends, NoneUsable;
      ghost var m0 := Mem();
      EmptyRun(m0, clicks);
      swaps := [];
      while true
        invariant Valid() && LegalRun(m0, swaps) && Swaps(m0, clicks, swaps)
        invariant Mem() == Run(m0, swaps) && swap_base == m0.swapBase
        invariant SameButMoved(m0.procs, Mem().procs)
        invariant CountNonEmpty(Live(Mem())) == CountNonEmpty(Live(m0))
        decreases Resident(mproc[..])
      {
        HolesCanonical(Mem(), mem);
        ghost var m := Mem();
        var hp, prev_ptr;
        if isWorstFit {
          hp, prev_ptr, k := table.FindBiggestHole(clicks, swap_base);
        } else {
          hp, prev_ptr, k := table.FindFirst(clicks, swap_base);
        }
        if hp != NIL_HOLE {
          ChosenFits(m.holes, clicks, swap_base, isWorstFit, k);
          EventKeeps(m, mem, Alloc(isWorstFit, clicks, k));
          var base := table.Bite(prev_ptr, hp, clicks, k);
          others := others + [Block(base, clicks)];
          r := Base(base);
          return;
        }
        var swapped, full;
        ghost var v, j;
        swapped, full, v, j := SwapOutOne();
        if full { r := Panic; return; }
        if !swapped { r := NoMem; return; }
        OneMoreSwap(m0, mem, clicks, swaps, v, j);
        SameTransitive(m0.procs, m.procs, Mem().procs);
        swaps := swaps + [SwapOut(v, j)];
      }
    }

    /** Unlink entry c, the process rmp behind prev, from the swap-in queue. */
    method Dequeue(prev: int, rmp: int, ghost c: nat) returns (ghost links: seq<Event>)
      requires QueueOk() && c < |queue| && queue[c] == rmp && (if c == 0 then prev == NIL else prev == queue[c - 1])
      modifies this`in_queue, this`queue, mproc
      ensures queue == Without(old(queue), c) && Chain(SwapLinks(mproc[..]), in_queue, queue) && Distinct(queue)
      ensures LegalRun(old(Mem()), links) && Mem() == Run(old(Mem()), links)
      ensures OnlyLinks(links)
      ensures forall i :: 0 <= i < mproc.Length ==> mproc[i].mp_flags == old(mproc[i].mp_flags)
    {
      ghost var m := Mem();
      EmptyRun(m, 0);
      WithoutDistinct(queue, c);
      ChainRemove(SwapLinks(mproc[..]), in_queue, queue, c);
      links := [];
      if prev == NIL {
        in_queue := mproc[rmp].mp_swapq;
      } else {
        links := [Link(prev, mproc[rmp].mp_swapq)];
        RunMore(m, [], links[0]);
        assert [] + [links[0]] == links;
        mproc[prev] := mproc[prev].(mp_swapq := mproc[rmp].mp_swapq);
        assert SwapLinks(mproc[..]) == SwapLinks(m.procs)[prev := SwapLinks(m.procs)[rmp]];
      }
      queue := Without(queue, c);
    }

    /** The rest of swap_in once alloc_mem has found memory at hole k of m. */
    method Arrive(p: nat, new_base: nat, ghost m: Memory, ghost k: nat) returns (full: bool)
      requires Inv(m, mem) && Legal(m, SwapIn(isWorstFit, p, k)) && Mem() == Apply(m, Alloc(isWorstFit, m.procs[p].data.len, k))
      requires table.Valid() && table.hole as object != mproc && new_base == m.holes[k].base
      modifies this`others, table, table.hole, mproc
      ensures !full ==> Valid() && Mem() == Apply(m, SwapIn(isWorstFit, p, k))
    {
      WantsIn(m, mem, p);
      EventKeeps(m, mem, SwapIn(isWorstFit, p, k));
      ChosenFits(m.holes, m.procs[p].data.len, swap_base, isWorstFit, k);
      hide WellLinked, Inv, Free, Take, CountNonEmpty, Ends, Live, Chosen;
      others := others[..|others| - 1];
      assert others == m.others;
      full := Settle(p, new_base, mproc[p].mp_flags - {ONSWAP, SWAPIN}, m, k);
    }

    /** swap_in for one process that wants to come in. */
    method BringIn(p: nat) returns (r: Allocated, ghost events: seq<Event>)
      requires Valid() && p < mproc.Length && SWAPIN in mproc[p].mp_flags
      modifies this`outswap, this`others, table, table.hole, mproc
      ensures !r.Panic? ==> Valid() && LegalRun(old(Mem()), events) && Mem() == Run(old(Mem()), events)
      ensures !r.Panic? ==> CameIn(old(mproc[..]), mproc[..], p, r.Base?) && RoundFor(old(Mem()), events, Mem(), p)
      ensures r.NoMem? ==> NoMemory(Mem(), mproc[p].data.len)
    {
      ghost var m0 := Mem();
      var size := mproc[p].data.len;
      ghost var swaps, k;
      r, swaps, k := AllocMem(size);
      hide *;
      if r.Panic? { events := []; return; }
      events := swaps;
      if r.NoMem? {
        StayedOut(m0.procs, mproc[..], p);
        RoundRefused(m0, swaps, Mem(), p);
        return;
      }
      WantsIn(m0, mem, p);
      ghost var m, e := Run(m0, swaps), SwapIn(isWorstFit, p, k);
      SwapInLegal(m0, mem, swaps, Mem(), isWorstFit, p, k);
      var full := Arrive(p, r.base, m, k);
      if full { r := Panic; return; }
      events := swaps + [e];
      RoundArrived(m0, mem, swaps, e, Mem(), p);
    }

    /** Entry i has been dealt with: it is dropped exactly when it no longer wants in. */
    method Advance(prev: int, rmp: int, ghost q0: seq<int>, ghost i: nat) returns (prev': int, ghost links: seq<Event>)
      requires Valid() && Standing(mproc[..], in_queue, queue, q0, i, prev) && i < |q0| && rmp == q0[i]
      modifies this`in_queue, this`queue, mproc
      ensures Valid() && Standing(mproc[..], in_queue, queue, q0, i + 1, prev')
      ensures LegalRun(old(Mem()), links) && Mem() == Run(old(Mem()), links) && OnlyLinks(links)
    {
      ghost var m, q, c := Mem(), queue, |Kept(q0, i, mproc[..])|;
      StandingAt(m.procs, in_queue, q, q0, i, prev);
      EmptyRun(m, 0);
      assert QueueOk() by { StandingQueue(m.procs, in_queue, q, q0, i, prev); }
      hide *;
      if SWAPIN in mproc[rmp].mp_flags {
        KeptStanding(m.procs, in_queue, q, q0, i, prev);
        prev', links := rmp, [];
      } else {
        links := Dequeue(prev, rmp, c);
        prev' := prev;
        RunKeeps(m, mem, links);
        DroppedStanding(m.procs, mproc[..], old(in_queue), q, q0, i, prev, in_queue);
      }
    }

    /** One round of swap_in's loop. If the entry wanted in and still does, there is no memory for it: no
        hole is big enough and nobody can be swapped out. If it came in it lies below swap_base. */
    method ServeOne(prev: int, rmp: int, ghost q0: seq<int>, ghost i: nat)
      returns (full: bool, prev': int, ghost events: seq<Event>)
      requires Valid() && Standing(mproc[..], in_queue, queue, q0, i, prev) && i < |q0| && rmp == q0[i]
      modifies this`outswap, this`others, this`in_queue, this`queue, table, table.hole, mproc
      ensures !full ==> Valid() && Standing(mproc[..], in_queue, queue, q0, i + 1, prev')
      ensures !full ==> LegalRun(old(Mem()), events) && Mem() == Run(old(Mem()), events)
      ensures !full ==> RoundFor(old(Mem()), events, Mem(), rmp)
      ensures !full && 0 <= rmp < mproc.Length && SWAPIN in old(mproc[rmp]).mp_flags ==>
                if SWAPIN in mproc[rmp].mp_flags then
                  NoneUsable(table.holes, mproc[rmp].data.len, swap_base) && forall j :: !Eligible(Mem(), j)
                else ONSWAP !in mproc[rmp].mp_flags && mproc[rmp].data.base < swap_base
    {
      StandingAt(mproc[..], in_queue, queue, q0, i, prev);
      hide WellLinked, Inv, Live, Run, LegalRun, Standing, Eligible, NoneUsable;
      ghost var m0 := Mem();
      events, full, prev' := [], false, prev;
      if SWAPIN in mproc[rmp].mp_flags {
        var r;
        r, events := BringIn(rmp);
        if r.Panic? { full := true; return; }
        StandingSame(m0.procs, mproc[..], in_queue, queue, q0, i, prev, r.Base?);
      } else {
        NothingToDo(m0, rmp);
      }
      ghost var links, m1 := [], Mem();
      prev', links := Advance(prev, rmp, q0, i);
      RunConcat(m0, events, links);
      RoundLinked(m0, events, m1, links, rmp);
      events := events + links;
    }

    /** swap_in: bring in whatever fits, in queue order; drop the entries of processes that died. An entry
        still queued at the end could not be brought in at some time of the run; the others came in. */
    method SwapInAll() returns (full: bool, ghost events: seq<Event>)
      requires Valid() && Chain(SwapLinks(mproc[..]), in_queue, queue) && Distinct(queue)
      modifies this`outswap, this`others, this`in_queue, this`queue, table, table.hole, mproc
      ensures !full ==> Valid() && Chain(SwapLinks(mproc[..]), in_queue, queue) && Distinct(queue)
      ensures !full ==> LegalRun(old(Mem()), events) && Mem() == Run(old(Mem()), events) && OnlySwaps(events)
      ensures !full ==> InRange(old(queue), mproc.Length) && queue == Keep(old(queue), mproc[..])
      ensures !full ==> forall p :: p in old(queue) ==> Outcome(old(Mem()), events, Mem(), p)
    {
      hide *;
      StartServed(queue, mproc[..], in_queue);
      ghost var m0, mem0, q0, i := Mem(), mem, queue, 0;
      EmptyRun(m0, 0);
      ValidInv();
      NoneDealt(m0, q0);
      var prev := NIL;
      events, full := [], false;
      while true
        invariant m0 == old(Mem()) && q0 == old(queue)
        invariant Valid() && LegalRun(m0, events) && Mem() == Run(m0, events)
        invariant OnlySwaps(events) && AllDealt(m0, events, q0, i)
        invariant i <= |q0| && Standing(mproc[..], in_queue, queue, q0, i, prev)
        decreases |q0| - i
      {
        NextEntry(mproc[..], in_queue, queue, q0, i, prev);
        ProcsAre();
        var rmp := if prev == NIL then in_queue else mproc[prev].mp_swapq;
        if rmp == NIL {
          EveryOutcome(m0, mem0, events, q0, i, mproc[..], in_queue, queue, prev);
          return;
        }
        ghost var more;
        EntryInTable(m0, events, q0, i, mproc[..], in_queue, queue, prev);
        full, prev, more := ServeOne(prev, rmp, q0, i);
        if full { return; }
        DealtMore(m0, events, q0, i, more, Mem());
        events := events + more;
        i := i + 1;
      }
    }

    lemma ProcsAre()
      ensures Mem().procs == mproc[..]
    {
    }

    lemma ValidInv()
      requires Valid()
      ensures Inv(Mem(), mem)
    {
    }
  }
}
