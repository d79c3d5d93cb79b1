/** Runs of swap_in in which a process is brought in and put out again for the next in the queue. */
module MemoryCases {
  import opened HoleList
  import opened MemorySpec
  import opened MemoryRuns
  import opened MemoryManager

  /** The flags of a process in memory that swap_out may take. */
  predicate CanGo(f: set<Flag>) {
    IN_USE in f && ONSWAP !in f && SWAPIN !in f && f * {PAUSED, WAITING, SIGSUSPENDED} != {} && f * {TRACED, REPLY} == {}
  }

  /** Ten clicks of memory and thirty of swap area; processes 2 and 3 are on swap and want in, and 2 has
      the flags f besides. */
  function TwoWant(f: set<Flag>): Memory {
    Memory([Block(0, 10), Block(31, 10)],
           [Proc({}, Block(0, 0), -1), Proc({}, Block(0, 0), -1),
            Proc(f + {ONSWAP, SWAPIN}, Block(11, 10), 3), Proc({IN_USE, ONSWAP, SWAPIN}, Block(21, 10), -1)],
           2, 11, [])
  }

  ghost function Clicked(): (mem: set<int>)
    ensures forall x :: x in mem <==> 0 <= x < 10 || 11 <= x < 41
  {
    Clicks(Block(0, 10)) + Clicks(Block(11, 30))
  }

  lemma TwoWantInv(f: set<Flag>)
    requires CanGo(f)
    ensures Inv(TwoWant(f), Clicked())
  {
    var m := TwoWant(f);
    var live := Live(m);
    assert live == [Block(0, 0), Block(0, 0), Block(11, 10), Block(21, 10)];
    forall x ensures Covers(m.holes, x) <==> 0 <= x < 10 || 31 <= x < 41 {
      assert m.holes[0] == Block(0, 10) && m.holes[1] == Block(31, 10);
      if 0 <= x < 10 { assert In(m.holes[0], x); }
      if 31 <= x < 41 { assert In(m.holes[1], x); }
    }
    forall x ensures Covers(live, x) <==> 11 <= x < 31 {
      if 11 <= x < 21 { assert In(live[2], x); }
      if 21 <= x < 31 { assert In(live[3], x); }
    }
  }

  /** Process 2 has come in. */
  function FirstIn(f: set<Flag>): Memory {
    Memory([Block(11, 10), Block(31, 10)],
           [Proc({}, Block(0, 0), -1), Proc({}, Block(0, 0), -1),
            Proc(f, Block(0, 10), 3), Proc({IN_USE, ONSWAP, SWAPIN}, Block(21, 10), -1)],
           2, 11, [])
  }

  /** And is out again, its wish to come in gone. */
  function FirstOut(f: set<Flag>): Memory {
    Memory([Block(0, 10), Block(31, 10)],
           [Proc({}, Block(0, 0), -1), Proc({}, Block(0, 0), -1),
            Proc(f + {ONSWAP}, Block(11, 10), 3), Proc({IN_USE, ONSWAP, SWAPIN}, Block(21, 10), -1)],
           2, 11, [])
  }

  function SecondIn(f: set<Flag>): Memory {
    Memory([Block(21, 20)],
           [Proc({}, Block(0, 0), -1), Proc({}, Block(0, 0), -1),
            Proc(f + {ONSWAP}, Block(11, 10), 3), Proc({IN_USE}, Block(0, 10), -1)],
           2, 11, [])
  }

  lemma ComesIn(f: set<Flag>)
    requires CanGo(f)
    ensures Legal(TwoWant(f), SwapIn(false, 2, 0)) && Apply(TwoWant(f), SwapIn(false, 2, 0)) == FirstIn(f)
  {
    var flags := TwoWant(f).procs[2].mp_flags;
    assert flags - {ONSWAP, SWAPIN} == f;
    assert Take(TwoWant(f).holes, 0, 10) == [Block(31, 10)];
    assert Free([Block(31, 10)], Block(11, 10)) == [Block(11, 10), Block(31, 10)];
  }

  lemma IsDue(f: set<Flag>)
    requires CanGo(f)
    ensures NoneUsable(FirstIn(f).holes, 10, 11) && Legal(FirstIn(f), SwapOut(2, 0))
  {
    var m := FirstIn(f);
    assert f * {TRACED, REPLY, ONSWAP} == f * {TRACED, REPLY};
    assert m.procs[3].mp_flags * {PAUSED, WAITING, SIGSUSPENDED} == {};
    assert InSwap(m.holes[0], 10, 11);
    assert Eligible(m, 2);
    forall i | Eligible(m, i) ensures i == 2 {}
  }

  lemma GoesOut(f: set<Flag>)
    requires CanGo(f)
    ensures Legal(FirstIn(f), SwapOut(2, 0)) && Apply(FirstIn(f), SwapOut(2, 0)) == FirstOut(f)
  {
    IsDue(f);
    hide IsVictim, IsSwapHole, NoneUsable;
    var m := FirstIn(f);
    assert m.procs[2].mp_flags + {ONSWAP} == f + {ONSWAP};
    assert Take(m.holes, 0, 10) == [Block(31, 10)];
    assert Free([Block(31, 10)], Block(0, 10)) == [Block(0, 10), Block(31, 10)];
  }

  lemma NextComesIn(f: set<Flag>)
    requires CanGo(f)
    ensures Legal(FirstOut(f), SwapIn(false, 3, 0)) && Apply(FirstOut(f), SwapIn(false, 3, 0)) == SecondIn(f)
  {
    var m := FirstOut(f);
    assert m.procs[3].mp_flags - {ONSWAP, SWAPIN} == {IN_USE};
    assert Take(m.holes, 0, 10) == [Block(31, 10)];
    var linked := [Block(21, 10), Block(31, 10)];
    assert Touches(linked, 0);
    assert Free([Block(31, 10)], Block(21, 10)) == [Block(21, 20)];
  }

  /** swap_in brings 2 in, and puts it out again to make room for 3: 2 has left the queue, and is still on
      swap. */
  lemma OutAgain(f: set<Flag>)
    requires CanGo(f)
    ensures Inv(TwoWant(f), Clicked())
    ensures var es := [SwapIn(false, 2, 0), SwapOut(2, 0), SwapIn(false, 3, 0)];
            && LegalRun(TwoWant(f), es) && OnlySwaps(es) && Run(TwoWant(f), es) == SecondIn(f)
            && Arrived(es, 2) && LastMove(es, 2) == MovedOut
            && SWAPIN !in SecondIn(f).procs[2].mp_flags && ONSWAP in SecondIn(f).procs[2].mp_flags
  {
    hide Apply, Legal, TwoWant, FirstIn, FirstOut, SecondIn, Inv, LegalRun, Run, Clicked;
    TwoWantInv(f);
    var a, b, c := SwapIn(false, 2, 0), SwapOut(2, 0), SwapIn(false, 3, 0);
    ThreeEvents(f);
    OffAgain(f);
    assert [] + [a] == [a] && [a] + [b] == [a, b] && [a, b] + [c] == [a, b, c];
    ArrivedMore([], a, 2);
    ArrivedMore([a], b, 2);
    ArrivedMore([a, b], c, 2);
  }

  lemma OffAgain(f: set<Flag>)
    requires CanGo(f)
    ensures |SecondIn(f).procs| == 4 && SWAPIN !in SecondIn(f).procs[2].mp_flags && ONSWAP in SecondIn(f).procs[2].mp_flags
  {
  }

  lemma ThreeEvents(f: set<Flag>)
    requires CanGo(f)
    ensures var es := [SwapIn(false, 2, 0), SwapOut(2, 0), SwapIn(false, 3, 0)];
            LegalRun(TwoWant(f), es) && Run(TwoWant(f), es) == SecondIn(f)
  {
    hide Apply, Legal, TwoWant, FirstIn, FirstOut, SecondIn;
    ComesIn(f);
    GoesOut(f);
    NextComesIn(f);
    var m, a, b, c := TwoWant(f), SwapIn(false, 2, 0), SwapOut(2, 0), SwapIn(false, 3, 0);
    assert [] + [a] == [a] && [a] + [b] == [a, b] && [a, b] + [c] == [a, b, c];
    assert LegalRun(m, []) && Run(m, []) == m;
    RunMore(m, [], a);
    RunMore(m, [a], b);
    RunMore(m, [a, b], c);
  }

  /** Exactly the processes that swap_out may take can be put out again in a run of swaps that starts with
      them on swap and wanting in. */
  lemma OutAgainExactly(f: set<Flag>)
    requires IN_USE in f && ONSWAP !in f && SWAPIN !in f
    ensures (exists m, mem, es, p :: Inv(m, mem) && MovesOutAgain(m, es, p, f)) <==> CanGo(f)
  {
    if CanGo(f) {
      OutAgain(f);
      AndItMoves(f);
    }
    forall m, es, p | MovesOutAgain(m, es, p, f) ensures CanGo(f) {
      if !CanGo(f) {
        assert f + {ONSWAP, SWAPIN} - {ONSWAP, SWAPIN} == f;
        assert f * {TRACED, REPLY, ONSWAP} == f * {TRACED, REPLY};
        NotMovedOut(m, es, p);
      }
    }
  }

  /** From m, process p with the flags f besides comes in and is put out again. */
  ghost predicate MovesOutAgain(m: Memory, es: seq<Event>, p: int, f: set<Flag>) {
    && LegalRun(m, es) && OnlySwaps(es) && 0 <= p < |m.procs| && m.procs[p].mp_flags == f + {ONSWAP, SWAPIN}
    && Arrived(es, p) && LastMove(es, p) == MovedOut
  }

  lemma AndItMoves(f: set<Flag>)
    requires CanGo(f)
    ensures var es := [SwapIn(false, 2, 0), SwapOut(2, 0), SwapIn(false, 3, 0)]; MovesOutAgain(TwoWant(f), es, 2, f)
  {
    OutAgain(f);
    hide LegalRun, OnlySwaps, Arrived, LastMove;
  }
}
