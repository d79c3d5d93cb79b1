/** With two B-producers and four calls of putA a wake-up is lost: the fourth putA wakes one of two
    waiting B-producers, which fills the buffer to five and signals A and C but not B. */
module MonitorLost {
  import opened MonitorSpec
  import opened MonitorSafety
  import opened MonitorLiveness

  ghost predicate Reach(m: System, n: System)
    requires Inv(m)
  {
    exists run :: Possible(m, run) && After(m, run) == n
  }

  lemma {:induction false} AfterConcat(m: System, a: seq<Move>, b: seq<Move>)
    requires Inv(m) && Possible(m, a) && Possible(After(m, a), b)
    ensures Possible(m, a + b) && After(m, a + b) == After(After(m, a), b)
    decreases |a|
  {
    hide Inv, Next, Enabled;
    if a == [] {
      assert a + b == b;
    } else {
      StepKeeps(m, a[0].t, a[0].v);
      AfterConcat(Next(m, a[0].t, a[0].v), a[1..], b);
      assert (a + b)[0] == a[0] && (a + b)[1..] == a[1..] + b;
    }
  }

  lemma Then(m: System, n: System, o: System)
    requires Inv(m) && Reach(m, n) && Inv(n) && Reach(n, o)
    ensures Reach(m, o)
  {
    var a :| Possible(m, a) && After(m, a) == n;
    var b :| Possible(n, b) && After(n, b) == o;
    AfterConcat(m, a, b);
  }

  lemma Here(m: System)
    requires Inv(m)
    ensures Reach(m, m)
  {
    assert Possible(m, []) && After(m, []) == m;
  }

  /** One step more. */
  lemma On(m: System, n: System, t: int, v: char)
    requires Inv(m) && Reach(m, n) && Enabled(n, t)
    ensures Inv(n) && Defined(n, t) && Reach(m, Next(n, t, v)) && Inv(Next(n, t, v))
  {
    var a :| Possible(m, a) && After(m, a) == n;
    StepKeeps(n, t, v);
    var o := Next(n, t, v);
    var one := [Move(t, v)];
    assert one[1..] == [];
    assert Possible(o, []) && After(o, []) == o;
    assert Possible(n, one) && After(n, one) == o;
    AfterConcat(m, a, one);
  }

  ghost predicate Idle(m: System, t: int, r: Role) {
    0 <= t < |m.threads| && m.threads[t].role == r && m.threads[t].pc == Outside && m.threads[t].left > 0
  }

  /** A B-producer finds the buffer too empty, and parks. */
  lemma Parks(m: System, t: int) returns (n: System)
    requires Inv(m) && m.s == 1 && Idle(m, t, ProducerB) && |m.values| <= 3
    ensures Reach(m, n) && Inv(n)
    ensures n == m.(threads := m.threads[t := m.threads[t].(pc := Parked)], waiting := m.waiting.Plus(B, 1))
  {
    hide Reach, Inv, Possible, After;
    Here(m);
    On(m, m, t, 'B');
    var m1 := Next(m, t, 'B');
    On(m, m1, t, 'B');
    var m2 := Next(m1, t, 'B');
    On(m, m2, t, 'B');
    n := Next(m2, t, 'B');
    assert n.threads == m.threads[t := m.threads[t].(pc := Parked)];
  }

  /** putA on a buffer of less than three: nobody else is concerned. */
  lemma Puts(m: System, t: int) returns (n: System)
    requires Inv(m) && m.s == 1 && Idle(m, t, ProducerA) && |m.values| <= 2 && m.waiting.c == 0
    ensures Reach(m, n) && Inv(n)
    ensures n == m.(threads := m.threads[t := Thread(ProducerA, Outside, m.threads[t].left - 1)],
                    values := m.values + ['A'], pushed := m.pushed + ['A'])
  {
    hide Reach, Inv, Possible, After;
    Here(m);
    On(m, m, t, 'A');
    var m1 := Next(m, t, 'A');
    On(m, m1, t, 'A');
    var m2 := Next(m1, t, 'A');
    On(m, m2, t, 'A');
    var m3 := Next(m2, t, 'A');
    On(m, m3, t, 'A');
    var m4 := Next(m3, t, 'A');
    On(m, m4, t, 'A');
    var m5 := Next(m4, t, 'A');
    On(m, m5, t, 'A');
    n := Next(m5, t, 'A');
    assert n.threads == m.threads[t := Thread(ProducerA, Outside, m.threads[t].left - 1)];
  }

  ghost predicate AsOutside(ths: seq<Thread>) {
    forall t :: 0 <= t < |ths| && ths[t].role == ProducerA ==> ths[t].pc == Outside
  }

  lemma {:induction false} PutsSome(m: System, k: nat) returns (n: System)
    requires Inv(m) && m.s == 1 && AsOutside(m.threads) && Total(PutsA, m.threads) >= k
    requires |m.values| + k <= 3 && m.waiting.c == 0
    ensures Reach(m, n) && Inv(n) && n.s == 1 && n.waiting == m.waiting && n.w == m.w
    ensures AsOutside(n.threads) && |n.threads| == |m.threads| && |n.values| == |m.values| + k
    ensures Total(PutsA, n.threads) == Total(PutsA, m.threads) - k
    ensures forall u :: 0 <= u < |m.threads| && m.threads[u].role == ProducerB ==> n.threads[u] == m.threads[u]
    decreases k
  {
    hide Reach, Inv, Possible, After;
    if k == 0 {
      n := m;
      Here(m);
    } else {
      var t := TotalPositive(PutsA, m.threads);
      var m1 := Puts(m, t);
      TotalUpdate(PutsA, m.threads, t, m1.threads[t]);
      n := PutsSome(m1, k - 1);
      Then(m, m1, n);
    }
  }

  /** The fourth putA wakes a B-producer; another one is still registered when the buffer holds five. */
  lemma WakesOnlyOne(m: System, a: int, b: int) returns (n: System)
    requires Inv(m) && m.s == 1 && Idle(m, a, ProducerA) && |m.values| == 3 && m.waiting.c == 0 && m.waiting.b >= 2
    requires 0 <= b < |m.threads| && m.threads[b].role == ProducerB && m.threads[b].pc == Parked
    ensures Reach(m, n) && Inv(n) && n.s == 1 && !Settled(n.waiting, |n.values|)
  {
    hide Reach, Inv, Possible, After, Settled;
    FreeMeans(m);
    Here(m);
    On(m, m, a, 'A');
    var m1 := Next(m, a, 'A');
    On(m, m1, a, 'A');
    var m2 := Next(m1, a, 'A');
    On(m, m2, a, 'A');
    var m3 := Next(m2, a, 'A');
    On(m, m3, a, 'A');
    var m4 := Next(m3, a, 'A');
    assert m4.threads[b] == m.threads[b] && m4.s == 0 && m4.w.b == 1 && m4.waiting.b >= 1 && |m4.values| == 4;
    n := BActs(m, m4, b);
    StillWaits(n.waiting, |n.values|);
  }

  lemma FreeMeans(m: System)
    requires Inv(m) && m.s > 0
    ensures m.w == PerCond(0, 0, 0)
  {
    NobodyInside(m);
  }

  lemma StillWaits(waiting: PerCond, size: nat)
    requires waiting.b > 0 && size == 5
    ensures !Settled(waiting, size)
  {
    assert waiting.Of(B) > 0 && Can(B, size);
    assert !Quiet(B, waiting, size);
  }

  lemma BActs(m: System, m4: System, b: int) returns (n: System)
    requires Inv(m) && Reach(m, m4) && m4.s == 0 && m4.w.b == 1 && m4.waiting.b >= 1 && m4.waiting.c == 0
    requires |m4.values| == 4
    requires 0 <= b < |m4.threads| && m4.threads[b].role == ProducerB && m4.threads[b].pc == Parked
    ensures Reach(m, n) && Inv(n) && n.s == 1 && n.waiting.b >= 1 && |n.values| == 5
  {
    hide Reach, Inv, Possible, After;
    On(m, m4, b, 'B');
    var m5 := Next(m4, b, 'B');
    On(m, m5, b, 'B');
    var m6 := Next(m5, b, 'B');
    On(m, m6, b, 'B');
    var m7 := Next(m6, b, 'B');
    On(m, m7, b, 'B');
    var m8 := Next(m7, b, 'B');
    On(m, m8, b, 'B');
    n := Next(m8, b, 'B');
  }

  lemma TwoProducersB(threads: seq<Thread>) returns (b: nat, c: nat)
    requires Total(ProducersB, threads) >= 2
    ensures b < |threads| && c < |threads| && b != c
    ensures threads[b].role == threads[c].role == ProducerB && threads[b].left > 0 && threads[c].left > 0
  {
    b := TotalPositive(ProducersB, threads);
    var rest := threads[b := Thread(ProducerB, Outside, 0)];
    TotalUpdate(ProducersB, threads, b, rest[b]);
    c := TotalPositive(ProducersB, rest);
  }

  lemma BothPark(threads: seq<Thread>, b: nat, c: nat) returns (n: System)
    requires Fresh(threads) && Inv(Initial(threads)) && b < |threads| && c < |threads| && b != c
    requires threads[b].role == threads[c].role == ProducerB && threads[b].left > 0 && threads[c].left > 0
    ensures Inv(n) && Reach(Initial(threads), n) && n.s == 1 && n.waiting == PerCond(0, 2, 0) && n.values == []
    ensures |n.threads| == |threads| && n.threads[b] == threads[b].(pc := Parked) && AsOutside(n.threads)
    ensures Total(PutsA, n.threads) == Total(PutsA, threads)
  {
    hide Reach, Inv, Possible, After;
    var m := Initial(threads);
    var m1 := Parks(m, b);
    n := Parks(m1, c);
    Then(m, m1, n);
    TotalUpdate(PutsA, threads, b, m1.threads[b]);
    TotalUpdate(PutsA, m1.threads, c, n.threads[c]);
  }

  lemma LostWakeup(threads: seq<Thread>)
    requires Fresh(threads) && !Few(Initial(threads))
    ensures !WakesUp(threads)
  {
    hide Reach, Inv, Possible, After, Settled, WakesUp;
    InitialInv(threads);
    var b, c := TwoProducersB(threads);
    var m1 := BothPark(threads, b, c);
    var m2 := PutsSome(m1, 3);
    Then(Initial(threads), m1, m2);
    var a := TotalPositive(PutsA, m2.threads);
    var n := WakesOnlyOne(m2, a, b);
    Then(Initial(threads), m2, n);
    Refutes(threads, n);
  }

  lemma Refutes(threads: seq<Thread>, n: System)
    requires Fresh(threads) && Inv(Initial(threads)) && Reach(Initial(threads), n)
    requires n.s > 0 && !Settled(n.waiting, |n.values|)
    ensures !WakesUp(threads)
  {
  }

  /** Exactly when no interleaving loses a wake-up: at most one thread calls putB, or putA is called
      no more than three times. */
  lemma WakesUpExactly(threads: seq<Thread>)
    requires Fresh(threads)
    ensures WakesUp(threads) <==> Total(ProducersB, threads) <= 1 || Total(PutsA, threads) <= 3
  {
    if Few(Initial(threads)) { NoLostWakeup(threads); } else { LostWakeup(threads); }
  }
}
