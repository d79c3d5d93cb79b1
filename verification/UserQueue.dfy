/** The user ready queue as sched() in scheduling/src/kernel/proc.c treats it: one list in which
    three groups take turns. q holds process slots, g the group of every slot. */
module UserQueue {

  const GROUPS := 3

  ghost predicate Grouped(q: seq<int>, g: seq<int>) {
    forall i :: 0 <= i < |q| ==> 0 <= q[i] < |g| && 0 <= g[q[i]] < GROUPS
  }

  // ---------------------------------------------------------------- sched on values

  function Rotate(q: seq<int>): seq<int> {
    if q == [] then [] else q[1..] + [q[0]]
  }

  /** The first entry of the group, or |q|. */
  function FirstOf(q: seq<int>, g: seq<int>, group: int): (k: nat)
    requires Grouped(q, g)
    ensures k <= |q|
    ensures forall i :: 0 <= i < k ==> g[q[i]] != group
    ensures k < |q| ==> g[q[k]] == group
  {
    if q == [] || g[q[0]] == group then 0 else 1 + FirstOf(q[1..], g, group)
  }

  function MoveToFront(q: seq<int>, k: nat): seq<int>
    requires k < |q|
  {
    [q[k]] + q[..k] + q[k + 1..]
  }

  /** The first of the groups after `group`, going round, that has an entry in the queue. */
  function NextPresent(q: seq<int>, g: seq<int>, group: int): (n: int)
    requires Grouped(q, g) && 0 <= group < GROUPS
    ensures 0 <= n < GROUPS
  {
    if FirstOf(q, g, (group + 1) % GROUPS) < |q| then (group + 1) % GROUPS
    else if FirstOf(q, g, (group + 2) % GROUPS) < |q| then (group + 2) % GROUPS
    else group
  }

  lemma RotateGrouped(q: seq<int>, g: seq<int>)
    requires Grouped(q, g)
    ensures Grouped(Rotate(q), g)
  {
  }

  lemma NextPresentThere(q: seq<int>, g: seq<int>)
    requires Grouped(q, g) && q != []
    ensures Grouped(Rotate(q), g)
    ensures FirstOf(Rotate(q), g, NextPresent(Rotate(q), g, g[q[0]])) < |q|
  {
    RotateGrouped(q, g);
    assert Rotate(q)[|q| - 1] == q[0];
  }

  /** sched: the head goes to the tail; the first entry of the next group present takes its place. */
  function Sched(q: seq<int>, g: seq<int>): seq<int>
    requires Grouped(q, g)
  {
    if q == [] then [] else
      NextPresentThere(q, g);
      var r := Rotate(q);
      MoveToFront(r, FirstOf(r, g, NextPresent(r, g, g[q[0]])))
  }

  // ---------------------------------------------------------------- three FIFO queues

  /** The members of one group, in queue order. */
  function Members(q: seq<int>, g: seq<int>, group: int): seq<int>
    requires Grouped(q, g)
  {
    if q == [] then []
    else Members(q[..|q| - 1], g, group) + if g[q[|q| - 1]] == group then [q[|q| - 1]] else []
  }

  function NextGroup(fifo: seq<seq<int>>, cur: int): (n: int)
    requires |fifo| == GROUPS && 0 <= cur < GROUPS
  {
    if fifo[(cur + 1) % GROUPS] != [] then (cur + 1) % GROUPS
    else if fifo[(cur + 2) % GROUPS] != [] then (cur + 2) % GROUPS
    else cur
  }

  /** What the scheduler is meant to be: a FIFO queue per group, and the group now in turn. */
  datatype Turns = Turns(fifo: seq<seq<int>>, cur: int) {
    ghost predicate Ok() {
      |fifo| == GROUPS && 0 <= cur < GROUPS && fifo[cur] != []
    }
  }

  /** One turn: the head goes to the back of its own group; the next group present is up. */
  function Turn(t: Turns): Turns
    requires t.Ok()
  {
    Turns(t.fifo[t.cur := Rotate(t.fifo[t.cur])], NextGroup(t.fifo, t.cur))
  }

  function Fifos(q: seq<int>, g: seq<int>): (f: seq<seq<int>>)
    requires Grouped(q, g)
  {
    [Members(q, g, 0), Members(q, g, 1), Members(q, g, 2)]
  }

  function AsTurns(q: seq<int>, g: seq<int>): Turns
    requires Grouped(q, g) && q != []
  {
    Turns(Fifos(q, g), g[q[0]])
  }

  // ---------------------------------------------------------------- refinement

  lemma {:induction false} MembersConcat(a: seq<int>, b: seq<int>, g: seq<int>, group: int)
    requires Grouped(a, g) && Grouped(b, g)
    ensures Grouped(a + b, g) && Members(a + b, g, group) == Members(a, g, group) + Members(b, g, group)
  {
    if b == [] {
      assert a + b == a;
    } else {
      var m := |b| - 1;
      MembersConcat(a, b[..m], g, group);
      assert (a + b)[..|a + b| - 1] == a + b[..m];
    }
  }

  lemma MembersOne(x: int, g: seq<int>, group: int)
    requires 0 <= x < |g| && 0 <= g[x] < GROUPS
    ensures Grouped([x], g) && Members([x], g, group) == if g[x] == group then [x] else []
  {
  }

  lemma {:induction false} MembersNone(q: seq<int>, g: seq<int>, group: int)
    requires Grouped(q, g)
    ensures Members(q, g, group) == [] <==> forall i :: 0 <= i < |q| ==> g[q[i]] != group
  {
    if q != [] { MembersNone(q[..|q| - 1], g, group); }
  }

  /** A group is present in the queue exactly when its own queue is not empty. */
  lemma PresentIsNonEmpty(q: seq<int>, g: seq<int>, group: int)
    requires Grouped(q, g)
    ensures FirstOf(q, g, group) < |q| <==> Members(q, g, group) != []
  {
  }

  /** The head of the queue heads its own group. */
  lemma HeadOfGroup(q: seq<int>, g: seq<int>)
    requires Grouped(q, g) && q != []
    ensures AsTurns(q, g).Ok() && Members(q, g, g[q[0]])[0] == q[0]
  {
  }

  lemma RotateMembers(q: seq<int>, g: seq<int>, group: int)
    requires Grouped(q, g) && q != []
    ensures Grouped(Rotate(q), g)
    ensures Members(Rotate(q), g, group) ==
            if group == g[q[0]] then Rotate(Members(q, g, group)) else Members(q, g, group)
  {
    assert q == [q[0]] + q[1..];
    MembersConcat([q[0]], q[1..], g, group);
    MembersConcat(q[1..], [q[0]], g, group);
    MembersOne(q[0], g, group);
  }

  /** Bringing a group's first entry to the head disturbs no group's own order. */
  lemma FrontMembers(a: seq<int>, x: int, b: seq<int>, g: seq<int>, any: int)
    requires Grouped(a, g) && Grouped(b, g) && 0 <= x < |g| && 0 <= g[x] < GROUPS
    requires forall i :: 0 <= i < |a| ==> g[a[i]] != g[x]
    ensures Grouped(a + [x] + b, g) && Grouped([x] + a + b, g)
    ensures Members([x] + a + b, g, any) == Members(a + [x] + b, g, any)
  {
    MembersOne(x, g, any);
    MembersConcat(a, [x], g, any);
    MembersConcat(a + [x], b, g, any);
    MembersConcat([x], a, g, any);
    MembersConcat([x] + a, b, g, any);
    if any == g[x] { MembersNone(a, g, any); }
  }

  lemma MoveMembers(q: seq<int>, g: seq<int>, k: nat, any: int)
    requires Grouped(q, g) && k < |q| && forall i :: 0 <= i < k ==> g[q[i]] != g[q[k]]
    ensures Grouped(MoveToFront(q, k), g) && Members(MoveToFront(q, k), g, any) == Members(q, g, any)
    ensures multiset(MoveToFront(q, k)) == multiset(q)
  {
    assert q == q[..k] + [q[k]] + q[k + 1..];
    FrontMembers(q[..k], q[k], q[k + 1..], g, any);
  }

  lemma NextAgree(q: seq<int>, g: seq<int>, group: int)
    requires Grouped(q, g) && 0 <= group < GROUPS
    ensures NextPresent(q, g, group) == NextGroup(Fifos(q, g), group)
  {
    PresentIsNonEmpty(q, g, (group + 1) % GROUPS);
    PresentIsNonEmpty(q, g, (group + 2) % GROUPS);
  }

  /** sched refines one turn of the three FIFO queues, and only permutes the list. */
  lemma SchedRefinesTurn(q: seq<int>, g: seq<int>)
    requires Grouped(q, g) && q != []
    ensures var r := Sched(q, g);
            && r != [] && Grouped(r, g) && multiset(r) == multiset(q)
            && AsTurns(q, g).Ok() && AsTurns(r, g) == Turn(AsTurns(q, g))
            && r[0] == AsTurns(r, g).fifo[AsTurns(r, g).cur][0]
  {
    hide Members, Sched, NextPresent, NextGroup, FirstOf, MoveToFront, Rotate;
    var h := g[q[0]];
    HeadOfGroup(q, g);
    SchedHead(q, g);
    SchedMembers(q, g, 0);
    SchedMembers(q, g, 1);
    SchedMembers(q, g, 2);
    NextAgree(Rotate(q), g, h);
    NextUnchanged(q, g);
    HeadOfGroup(Sched(q, g), g);
    assert Fifos(Sched(q, g), g) == Fifos(q, g)[h := Rotate(Fifos(q, g)[h])];
  }

  lemma SchedHead(q: seq<int>, g: seq<int>)
    requires Grouped(q, g) && q != []
    ensures Sched(q, g) != [] && Grouped(Rotate(q), g) && Grouped(Sched(q, g), g)
    ensures g[Sched(q, g)[0]] == NextPresent(Rotate(q), g, g[q[0]])
  {
    NextPresentThere(q, g);
    SchedMembers(q, g, 0);
  }

  lemma SchedMembers(q: seq<int>, g: seq<int>, any: int)
    requires Grouped(q, g) && q != []
    ensures Grouped(Sched(q, g), g) && multiset(Sched(q, g)) == multiset(q)
    ensures Members(Sched(q, g), g, any) ==
            if any == g[q[0]] then Rotate(Members(q, g, any)) else Members(q, g, any)
  {
    var r := Rotate(q);
    RotateMembers(q, g, any);
    NextPresentThere(q, g);
    MoveMembers(r, g, FirstOf(r, g, NextPresent(r, g, g[q[0]])), any);
    assert q == [q[0]] + q[1..];
  }

  /** Rotation empties no group. */
  lemma NextUnchanged(q: seq<int>, g: seq<int>)
    requires Grouped(q, g) && q != []
    ensures Grouped(Rotate(q), g)
    ensures NextGroup(Fifos(Rotate(q), g), g[q[0]]) == NextGroup(Fifos(q, g), g[q[0]])
  {
    RotateMembers(q, g, 0);
    RotateMembers(q, g, 1);
    RotateMembers(q, g, 2);
  }

  // ---------------------------------------------------------------- bounded waiting

  function SchedTimes(q: seq<int>, g: seq<int>, n: nat): (r: seq<int>)
    requires Grouped(q, g) && q != []
    ensures r != [] && Grouped(r, g)
    decreases n
  {
    if n == 0 then q else
      var before := SchedTimes(q, g, n - 1);
      SchedRefinesTurn(before, g);
      Sched(before, g)
  }

  lemma TurnOk(t: Turns)
    requires t.Ok()
    ensures Turn(t).Ok()
  {
  }

  function TurnTimes(t: Turns, n: nat): (r: Turns)
    requires t.Ok()
    ensures r.Ok()
  {
    if n == 0 then t else
      TurnOk(TurnTimes(t, n - 1));
      Turn(TurnTimes(t, n - 1))
  }

  /** Runs of sched are runs of the three queues. */
  lemma {:induction false} SchedTimesRefines(q: seq<int>, g: seq<int>, n: nat)
    requires Grouped(q, g) && q != []
    ensures AsTurns(q, g).Ok()
    ensures AsTurns(SchedTimes(q, g, n), g) == TurnTimes(AsTurns(q, g), n)
    ensures multiset(SchedTimes(q, g, n)) == multiset(q)
  {
    hide Members, Sched, Fifos, Turn, Grouped;
    HeadOfGroup(q, g);
    if n > 0 {
      SchedTimesRefines(q, g, n - 1);
      SchedRefinesTurn(SchedTimes(q, g, n - 1), g);
    }
  }

  /** The number of groups present. */
  function Present(fifo: seq<seq<int>>): nat
    requires |fifo| == GROUPS
  {
    (if fifo[0] != [] then 1 else 0) + (if fifo[1] != [] then 1 else 0) + (if fifo[2] != [] then 1 else 0)
  }

  /** How many groups are up before `group` is. */
  function Ahead(t: Turns, group: int): nat
    requires t.Ok() && 0 <= group < GROUPS
  {
    if group == t.cur then 0
    else if group == (t.cur + 1) % GROUPS || t.fifo[(t.cur + 1) % GROUPS] == [] then 1
    else 2
  }

  /** How many calls of sched the process at place k of its group still waits for the head. */
  function Wait(t: Turns, group: int, k: nat): nat
    requires t.Ok() && 0 <= group < GROUPS
  {
    Ahead(t, group) + Present(t.fifo) * k
  }

  /** A group's turn comes one call nearer each time, and after its turn the round starts again. */
  lemma AheadStep(t: Turns, group: int)
    requires t.Ok() && 0 <= group < GROUPS && t.fifo[group] != []
    ensures Turn(t).Ok() && Present(Turn(t).fifo) == Present(t.fifo) && Ahead(t, group) < Present(t.fifo) <= 3
    ensures Ahead(t, group) == 0 <==> t.cur == group
    ensures Ahead(Turn(t), group) == if Ahead(t, group) == 0 then Present(t.fifo) - 1 else Ahead(t, group) - 1
  {
  }

  lemma ModStep(x: int, c: nat)
    requires 1 <= c <= 3
    ensures (x - 1) % c == if x % c == 0 then c - 1 else x % c - 1
  {
  }

  /** When a group present heads the queue. */
  lemma {:induction false} GroupTurns(t: Turns, group: int, n: nat)
    requires t.Ok() && 0 <= group < GROUPS && t.fifo[group] != []
    ensures Present(TurnTimes(t, n).fifo) == Present(t.fifo) && TurnTimes(t, n).fifo[group] != []
    ensures Ahead(TurnTimes(t, n), group) == (Ahead(t, group) - n) % Present(t.fifo)
    ensures TurnTimes(t, n).cur == group <==> (Ahead(t, group) - n) % Present(t.fifo) == 0
  {
    hide Present, Turn, Ahead, NextGroup, Rotate;
    AheadStep(t, group);
    if n == 0 {
      SmallMod(Ahead(t, group), Present(t.fifo));
    } else {
      GroupTurns(t, group, n - 1);
      var before := TurnTimes(t, n - 1);
      AheadStep(before, group);
      TurnKeepsGroup(before, group);
      AheadStep(Turn(before), group);
      ModStep(Ahead(t, group) - (n - 1), Present(t.fifo));
    }
  }

  /** In every window of as many calls as there are groups present, a group present heads the queue
      after exactly one of them. */
  lemma UpOnceInEach(t: Turns, group: int, n: nat) returns (j: nat)
    requires t.Ok() && 0 <= group < GROUPS && t.fifo[group] != []
    ensures n <= j < n + Present(t.fifo)
    ensures forall i: nat :: n <= i < n + Present(t.fifo) ==> (TurnTimes(t, i).cur == group <==> i == j)
  {
    hide Present, Turn, Ahead, NextGroup, Rotate;
    AheadStep(t, group);
    var c, x := Present(t.fifo), Ahead(t, group) - n;
    j := n + x % c;
    forall i: nat | n <= i < n + c ensures TurnTimes(t, i).cur == group <==> i == j {
      GroupTurns(t, group, i);
      ModWindow(x, i - n, c);
    }
  }

  lemma ModWindow(x: int, d: nat, c: nat)
    requires 1 <= c <= 3 && d < c
    ensures 0 <= x % c < c && ((x - d) % c == 0 <==> d == x % c)
  {
  }

  lemma SmallMod(x: nat, c: nat)
    requires x < c
    ensures x % c == x
  {
  }

  lemma TurnKeepsGroup(t: Turns, group: int)
    requires t.Ok() && 0 <= group < GROUPS && t.fifo[group] != []
    ensures Turn(t).Ok() && Turn(t).fifo[group] != []
  {
  }

  /** Waiting shrinks by exactly one with every call, until the process is at the head. */
  lemma WaitStep(t: Turns, group: int, k: nat)
    requires t.Ok() && 0 <= group < GROUPS && k < |t.fifo[group]| && Wait(t, group, k) > 0
    ensures Turn(t).Ok()
    ensures var k' := if group == t.cur then k - 1 else k;
            && 0 <= k' < |Turn(t).fifo[group]| && Turn(t).fifo[group][k'] == t.fifo[group][k]
            && Wait(Turn(t), group, k') == Wait(t, group, k) - 1
  {
  }

  lemma {:induction false} WaitRun(t: Turns, group: int, k: nat, n: nat) returns (j: nat)
    requires t.Ok() && 0 <= group < GROUPS && k < |t.fifo[group]| && n <= Wait(t, group, k)
    ensures j < |TurnTimes(t, n).fifo[group]| && TurnTimes(t, n).fifo[group][j] == t.fifo[group][k]
    ensures Wait(TurnTimes(t, n), group, j) == Wait(t, group, k) - n
  {
    hide Wait, Turn;
    j := k;
    if n > 0 {
      j := WaitRun(t, group, k, n - 1);
      var before := TurnTimes(t, n - 1);
      WaitStep(before, group, j);
      j := if group == before.cur then j - 1 else j;
    }
  }

  lemma {:induction false} MembersWithin(q: seq<int>, g: seq<int>, group: int)
    requires Grouped(q, g)
    ensures multiset(Members(q, g, group)) <= multiset(q)
    ensures forall i :: 0 <= i < |Members(q, g, group)| ==>
              var m := Members(q, g, group)[i]; 0 <= m < |g| && g[m] == group
  {
    if q != [] {
      var n := |q| - 1;
      MembersWithin(q[..n], g, group);
      assert q == q[..n] + [q[n]];
    }
  }

  lemma TwicePresent(s: seq<int>, j: nat)
    requires 0 < j < |s| && s[j] == s[0]
    ensures multiset(s)[s[0]] >= 2
  {
    assert s == [s[0]] + s[1..j] + [s[j]] + s[j + 1..];
  }

  /** A process not yet due is not at the head. */
  lemma NotYet(q: seq<int>, g: seq<int>, group: int, j: nat)
    requires Grouped(q, g) && q != [] && 0 <= group < GROUPS && j < |Members(q, g, group)|
    requires forall x :: multiset(q)[x] <= 1
    requires AsTurns(q, g).Ok() && Wait(AsTurns(q, g), group, j) > 0
    ensures q[0] != Members(q, g, group)[j]
  {
    HeadOfGroup(q, g);
    MembersWithin(q, g, group);
    if g[q[0]] == group && Members(q, g, group)[j] == q[0] && j > 0 {
      TwicePresent(Members(q, g, group), j);
      assert multiset(Members(q, g, group))[q[0]] <= multiset(q)[q[0]];
    }
  }

  /** Bounded waiting: the process at place k of its group is at the head after exactly Wait calls
      of sched and not before, which is within Present * (k + 1) calls. */
  lemma BoundedWaiting(q: seq<int>, g: seq<int>, group: int, k: nat)
    requires Grouped(q, g) && q != [] && 0 <= group < GROUPS && k < |Members(q, g, group)|
    requires forall x :: multiset(q)[x] <= 1
    ensures AsTurns(q, g).Ok()
    ensures var t, p := AsTurns(q, g), Members(q, g, group)[k];
            && SchedTimes(q, g, Wait(t, group, k))[0] == p
            && (forall n: nat :: n < Wait(t, group, k) ==> SchedTimes(q, g, n)[0] != p)
            && Wait(t, group, k) < Present(t.fifo) * (k + 1)
  {
    HeadOfGroup(q, g);
    var t, p := AsTurns(q, g), Members(q, g, group)[k];
    var w := Wait(t, group, k);
    AheadStep(t, group);
    var j := WaitRun(t, group, k, w);
    SchedTimesRefines(q, g, w);
    HeadOfGroup(SchedTimes(q, g, w), g);
    AtHead(TurnTimes(t, w), group, j);
    forall n: nat | n < w
      ensures SchedTimes(q, g, n)[0] != p
    {
      var i := WaitRun(t, group, k, n);
      SchedTimesRefines(q, g, n);
      NotYet(SchedTimes(q, g, n), g, group, i);
    }
  }

  lemma AtHead(t: Turns, group: int, j: nat)
    requires t.Ok() && 0 <= group < GROUPS && t.fifo[group] != [] && Wait(t, group, j) == 0
    ensures group == t.cur && j == 0
  {
  }
}
