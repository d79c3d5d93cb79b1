/** The hole table of memory-management/src/mm/alloc.c: one array of slots threaded by two linked
    lists, the holes in address order and the unused slots. Pointers are slot numbers. */
module HoleTable {
  import opened Chains
  import opened HoleList

  const NIL_HOLE := NIL

  datatype Slot = Slot(h_next: int, h_base: nat, h_len: nat)

  ghost function Links(t: seq<Slot>): (next: seq<int>)
    ensures |next| == |t| && forall i :: 0 <= i < |t| ==> next[i] == t[i].h_next
  {
    seq(|t|, i requires 0 <= i < |t| => t[i].h_next)
  }

  /** The two lists are acyclic, disjoint, and together use every slot of the table. */
  ghost predicate Partitioned(t: seq<Slot>, l: seq<int>, f: seq<int>) {
    && Distinct(l) && Distinct(f)
    && (forall i, j :: 0 <= i < |l| && 0 <= j < |f| ==> l[i] != f[j])
    && |l| + |f| == |t|
  }

  /** The slots of list l hold the holes hs. */
  ghost predicate Holds(t: seq<Slot>, l: seq<int>, hs: seq<Block>) {
    && |hs| == |l|
    && forall i :: 0 <= i < |l| ==> 0 <= l[i] < |t| && hs[i] == Block(t[l[i]].h_base, t[l[i]].h_len)
  }

  ghost predicate WellLinked(t: seq<Slot>, head: int, free: int, l: seq<int>, f: seq<int>, hs: seq<Block>) {
    && Chain(Links(t), head, l)
    && Chain(Links(t), free, f)
    && Partitioned(t, l, f)
    && Holds(t, l, hs)
  }

  // ---------------------------------------------------------------- del_slot on values

  /** The table after del_slot(prev, hp). */
  ghost function Unlinked(t: seq<Slot>, prev: int, hp: int, free: int, front: bool): seq<Slot>
    requires 0 <= hp < |t| && (!front ==> 0 <= prev < |t|)
  {
    var u := if front then t else t[prev := t[prev].(h_next := t[hp].h_next)];
    u[hp := u[hp].(h_next := free)]
  }

  lemma UnlinkedPartition(t: seq<Slot>, l: seq<int>, f: seq<int>, k: nat)
    requires Partitioned(t, l, f) && k < |l|
    ensures Partitioned(t, Without(l, k), [l[k]] + f)
  {
  }

  lemma UnlinkedLinks(t: seq<Slot>, head: int, free: int, l: seq<int>, f: seq<int>, prev: int, k: nat)
    requires Chain(Links(t), head, l) && Chain(Links(t), free, f) && Partitioned(t, l, f)
    requires k < |l| && (k > 0 ==> prev == l[k - 1])
    ensures 0 <= l[k] < |t| && (k > 0 ==> 0 <= prev < |t|) && (head == l[k] <==> k == 0)
    ensures var u := Unlinked(t, prev, l[k], free, k == 0);
            && Chain(Links(u), if k == 0 then t[l[k]].h_next else head, Without(l, k))
            && Chain(Links(u), l[k], [l[k]] + f)
  {
    var next, hp := Links(t), l[k];
    ChainRemove(next, head, l, k);
    var next1 := if k == 0 then next else next[prev := next[hp]];
    SegmentFrame(next, next1, f, NIL);
    assert Links(Unlinked(t, prev, hp, free, k == 0)) == next1[hp := free];
    UnlinkedPartition(t, l, f, k);
    assert [hp] + f == [([hp] + f)[0]] + f;
    SegmentFrame(next1, next1[hp := free], Without(l, k), NIL);
    ChainPush(next1, free, f, hp);
  }

  lemma UnlinkedHolds(t: seq<Slot>, u: seq<Slot>, l: seq<int>, hs: seq<Block>, k: nat)
    requires Holds(t, l, hs) && |u| == |t| && k < |l|
    requires forall i :: 0 <= i < |t| ==> u[i].h_base == t[i].h_base && u[i].h_len == t[i].h_len
    ensures Holds(u, Without(l, k), hs[..k] + hs[k + 1..])
  {
  }

  lemma DelSlotLinks(t: seq<Slot>, head: int, free: int, l: seq<int>, f: seq<int>, hs: seq<Block>, prev: int, k: nat)
    requires WellLinked(t, head, free, l, f, hs) && k < |l| && (k > 0 ==> prev == l[k - 1])
    ensures 0 <= l[k] < |t| && (k > 0 ==> 0 <= prev < |t|) && (head == l[k] <==> k == 0)
    ensures WellLinked(Unlinked(t, prev, l[k], free, k == 0), if k == 0 then t[l[k]].h_next else head, l[k],
                       Without(l, k), [l[k]] + f, hs[..k] + hs[k + 1..])
  {
    UnlinkedLinks(t, head, free, l, f, prev, k);
    UnlinkedPartition(t, l, f, k);
    UnlinkedHolds(t, Unlinked(t, prev, l[k], free, k == 0), l, hs, k);
  }

  // ---------------------------------------------------------------- linking in, on values

  /** The table after slot s, taken off the unused list, is linked in behind prev (or in front). */
  ghost function LinkedIn(t: seq<Slot>, prev: int, s: int, succ: int, b: Block): seq<Slot>
    requires 0 <= s < |t| && prev < |t|
  {
    var u := t[s := Slot(succ, b.base, b.len)];
    if prev < 0 then u else u[prev := u[prev].(h_next := s)]
  }

  function Inserted<T>(l: seq<T>, k: nat, x: T): seq<T>
    requires k <= |l|
  {
    l[..k] + [x] + l[k..]
  }

  lemma LinkedInLinks(t: seq<Slot>, head: int, free: int, l: seq<int>, f: seq<int>, k: nat, b: Block)
    requires Chain(Links(t), head, l) && Chain(Links(t), free, f) && Partitioned(t, l, f)
    requires f != [] && k <= |l|
    ensures 0 <= free < |t| && free == f[0] && free !in l && (k > 0 ==> 0 <= l[k - 1] < |t|)
    ensures var prev, succ := if k == 0 then NIL else l[k - 1], if k == 0 then head else t[l[k - 1]].h_next;
            var u := LinkedIn(t, prev, free, succ, b);
            && Chain(Links(u), if k == 0 then free else head, Inserted(l, k, free))
            && Chain(Links(u), t[free].h_next, f[1..])
  {
    hide Segment;
    var next := Links(t);
    ChainRemove(next, free, f, 0);
    assert Without(f, 0) == f[1..];
    if k == 0 {
      ChainPush(next, head, l, free);
      assert Links(LinkedIn(t, NIL, free, head, b)) == next[free := head];
      assert Inserted(l, 0, free) == [free] + l;
      SegmentUpdate(next, f[1..], NIL, free, head);
    } else {
      var prev := l[k - 1];
      ChainInsert(next, head, l, k - 1, free);
      assert Links(LinkedIn(t, prev, free, t[prev].h_next, b)) == next[free := next[prev]][prev := free];
      SegmentUpdate(next, f[1..], NIL, free, next[prev]);
      SegmentUpdate(next[free := next[prev]], f[1..], NIL, prev, free);
    }
  }

  lemma LinkedInPartition(t: seq<Slot>, l: seq<int>, f: seq<int>, k: nat)
    requires Partitioned(t, l, f) && f != [] && k <= |l|
    ensures Partitioned(t, Inserted(l, k, f[0]), f[1..])
  {
  }

  lemma LinkedInHolds(t: seq<Slot>, prev: int, s: int, succ: int, b: Block, l: seq<int>, hs: seq<Block>, k: nat)
    requires Holds(t, l, hs) && k <= |l| && 0 <= s < |t| && s !in l && prev < |t|
    ensures Holds(LinkedIn(t, prev, s, succ, b), Inserted(l, k, s), Inserted(hs, k, b))
  {
  }

  lemma LinkInLinks(t: seq<Slot>, head: int, free: int, l: seq<int>, f: seq<int>, hs: seq<Block>, k: nat, b: Block)
    requires WellLinked(t, head, free, l, f, hs) && f != [] && k <= |l|
    ensures 0 <= free < |t| && (k > 0 ==> 0 <= l[k - 1] < |t|)
    ensures var prev, succ := if k == 0 then NIL else l[k - 1], if k == 0 then head else t[l[k - 1]].h_next;
            WellLinked(LinkedIn(t, prev, free, succ, b), if k == 0 then free else head, t[free].h_next,
                       Inserted(l, k, free), f[1..], Inserted(hs, k, b))
  {
    LinkedInLinks(t, head, free, l, f, k, b);
    LinkedInPartition(t, l, f, k);
    LinkedInHolds(t, if k == 0 then NIL else l[k - 1], free, if k == 0 then head else t[l[k - 1]].h_next, b, l, hs, k);
  }

  /** Changing what one hole covers relinks nothing. */
  lemma Resized(t: seq<Slot>, head: int, free: int, l: seq<int>, f: seq<int>, hs: seq<Block>, k: nat, b: Block)
    requires WellLinked(t, head, free, l, f, hs) && k < |l|
    ensures 0 <= l[k] < |t|
    ensures WellLinked(t[l[k] := Slot(t[l[k]].h_next, b.base, b.len)], head, free, l, f, hs[k := b])
  {
  }

  /** Reading hole k through its slot. */
  lemma Node(t: seq<Slot>, head: int, free: int, l: seq<int>, f: seq<int>, hs: seq<Block>, k: nat)
    requires WellLinked(t, head, free, l, f, hs) && k < |l|
    ensures |hs| == |l| && 0 <= l[k] < |t| && t[l[k]] == Slot(After(l, k, NIL), hs[k].base, hs[k].len)
  {
  }

  lemma Heads(t: seq<Slot>, head: int, free: int, l: seq<int>, f: seq<int>, hs: seq<Block>)
    requires WellLinked(t, head, free, l, f, hs)
    ensures head == After(l, -1, NIL) && (l == [] || 0 <= head < |t|)
    ensures free == After(f, -1, NIL) && (f == [] || 0 <= free < |t|)
    ensures |l| + |f| == |t|
  {
  }

  // ---------------------------------------------------------------- spec steps

  /** Biting in the code's two steps: shrink the hole, then delete it if nothing is left. */
  lemma TakeInSteps(hs: seq<Block>, k: nat, clicks: nat)
    requires k < |hs| && clicks <= hs[k].len
    ensures var shrunk := hs[k := Block(hs[k].base + clicks, hs[k].len - clicks)];
            Take(hs, k, clicks) == if hs[k].len == clicks then shrunk[..k] + shrunk[k + 1..] else shrunk
  {
  }

  lemma AbsorbLast(hs: seq<Block>, p: nat)
    requires p + 1 == |hs|
    ensures Absorb(hs, p) == hs
  {
  }

  lemma AbsorbInSteps(hs: seq<Block>, p: nat)
    requires p < |hs| && Touches(hs, p)
    ensures var grown := hs[p := Block(hs[p].base, hs[p].len + hs[p + 1].len)];
            Absorb(hs, p) == grown[..p + 1] + grown[p + 2..]
  {
  }

  class Table {
    const hole: array<Slot>
    var hole_head: int
    var free_slots: int
    ghost var list: seq<int>
    ghost var unused: seq<int>
    ghost var holes: seq<Block>

    ghost predicate Valid()
      reads this, hole
    {
      && |holes| == |list|
      && WellLinked(hole[..], hole_head, free_slots, list, unused, holes)
    }

    /** mem_init's first part: every slot unused, each linked to the one after it. */
    constructor (nrHoles: nat)
      requires nrHoles > 0
      ensures Valid() && holes == [] && hole.Length == nrHoles
      ensures fresh(hole)
    {
      hole := new Slot[nrHoles](i => Slot(i + 1, 0, 0));
      hole_head := NIL_HOLE;
      free_slots := 0;
      list := [];
      unused := seq(nrHoles, i => i);
      holes := [];
      new;
      hole[nrHoles - 1] := Slot(NIL_HOLE, 0, 0);
    }

    /** Unlink hole k, the slot hp, and put the slot on the unused list. */
    method DelSlot(prev_ptr: int, hp: int, ghost k: nat)
      requires Valid() && k < |list| && list[k] == hp
      requires k > 0 ==> prev_ptr == list[k - 1]
      modifies this, hole
      ensures Valid()
      ensures list == old(Without(list, k)) && unused == [hp] + old(unused)
      ensures holes == old(holes[..k] + holes[k + 1..])
    {
      hide WellLinked;
      ghost var t := hole[..];
      DelSlotLinks(t, hole_head, free_slots, list, unused, holes, prev_ptr, k);
      if hp == hole_head {
        hole_head := hole[hp].h_next;
      } else {
        hole[prev_ptr] := hole[prev_ptr].(h_next := hole[hp].h_next);
      }
      hole[hp] := hole[hp].(h_next := free_slots);
      assert hole[..] == Unlinked(t, prev_ptr, hp, free_slots, k == 0);
      free_slots := hp;
      list := Without(list, k);
      unused := [hp] + unused;
      holes := holes[..k] + holes[k + 1..];
    }

    method SetBlock(hp: int, b: Block, ghost k: nat)
      requires Valid() && k < |list| && list[k] == hp
      modifies hole, this`holes
      ensures Valid()
      ensures holes == old(holes)[k := b]
    {
      hide WellLinked;
      ghost var t := hole[..];
      Resized(t, hole_head, free_slots, list, unused, holes, k, b);
      hole[hp] := Slot(hole[hp].h_next, b.base, b.len);
      assert hole[..] == t[hp := Slot(t[hp].h_next, b.base, b.len)];
      holes := holes[k := b];
    }

    /** Bite `clicks` off hole k, the slot hp; delete the hole if it is used up completely. */
    method Bite(prev_ptr: int, hp: int, clicks: nat, ghost k: nat) returns (old_base: nat)
      requires Valid() && k < |list| && list[k] == hp && clicks <= holes[k].len
      requires k > 0 ==> prev_ptr == list[k - 1]
      modifies this, hole
      ensures Valid()
      ensures old_base == old(holes[k].base)
      ensures holes == Take(old(holes), k, clicks)
    {
      hide WellLinked;
      TakeInSteps(holes, k, clicks);
      Node(hole[..], hole_head, free_slots, list, unused, holes, k);
      old_base := hole[hp].h_base;
      var rest := Block(old_base + clicks, hole[hp].h_len - clicks);
      SetBlock(hp, rest, k);
      if rest.len == 0 {
        DelSlot(prev_ptr, hp, k);
      }
    }

    /** The first hole, below swap_base, of at least `clicks`. */
    method FindFirst(clicks: nat, swap_base: nat) returns (hp: int, prev_ptr: int, ghost k: nat)
      requires Valid() && Canonical(holes)
      ensures hp == NIL_HOLE ==> NoneUsable(holes, clicks, swap_base)
      ensures hp != NIL_HOLE ==> IsFirstFit(holes, clicks, swap_base, k) && list[k] == hp
      ensures hp != NIL_HOLE ==> k > 0 ==> prev_ptr == list[k - 1]
    {
      hide WellLinked;
      Heads(hole[..], hole_head, free_slots, list, unused, holes);
      if list != [] { Node(hole[..], hole_head, free_slots, list, unused, holes, 0); }
      hp, prev_ptr, k := hole_head, NIL_HOLE, 0;
      while hp != NIL_HOLE && hole[hp].h_base < swap_base
        invariant k <= |list| && hp == After(list, k - 1, NIL)
        invariant k > 0 ==> prev_ptr == list[k - 1]
        invariant k < |list| ==> 0 <= hp < hole.Length && hole[hp].h_base == holes[k].base
        invariant forall i :: 0 <= i < k ==> !Usable(holes[i], clicks, swap_base)
        decreases |list| - k
      {
        Node(hole[..], hole_head, free_slots, list, unused, holes, k);
        if hole[hp].h_len >= clicks { return; }
        prev_ptr, hp, k := hp, hole[hp].h_next, k + 1;
        if k < |list| { Node(hole[..], hole_head, free_slots, list, unused, holes, k); }
      }
      BeyondSwapBase(holes, k, clicks, swap_base);
      hp := NIL_HOLE;
    }

    /** The biggest hole, below swap_base, of at least `clicks`; the first of the biggest. */
    method FindBiggestHole(clicks: nat, swap_base: nat)
      returns (biggest_hole: int, prev_biggest_hole: int, ghost b: nat)
      requires Valid() && Canonical(holes)
      ensures biggest_hole == NIL_HOLE ==> NoneUsable(holes, clicks, swap_base)
      ensures biggest_hole != NIL_HOLE ==> IsWorstFit(holes, clicks, swap_base, b) && list[b] == biggest_hole
      ensures biggest_hole != NIL_HOLE ==> b > 0 ==> prev_biggest_hole == list[b - 1]
    {
      hide WellLinked;
      Heads(hole[..], hole_head, free_slots, list, unused, holes);
      if list != [] { Node(hole[..], hole_head, free_slots, list, unused, holes, 0); }
      var hp, prev_ptr := hole_head, NIL_HOLE;
      ghost var k := 0;
      biggest_hole, prev_biggest_hole, b := NIL_HOLE, NIL_HOLE, 0;
      while hp != NIL_HOLE && hole[hp].h_base < swap_base
        invariant k <= |list| && hp == After(list, k - 1, NIL)
        invariant k > 0 ==> prev_ptr == list[k - 1]
        invariant k < |list| ==> 0 <= hp < hole.Length && hole[hp].h_base == holes[k].base
        invariant biggest_hole == NIL_HOLE ==> forall i :: 0 <= i < k ==> !Usable(holes[i], clicks, swap_base)
        invariant biggest_hole != NIL_HOLE ==> IsWorstUpTo(holes, k, clicks, swap_base, b) && list[b] == biggest_hole
        invariant biggest_hole != NIL_HOLE ==> b > 0 ==> prev_biggest_hole == list[b - 1]
        decreases |list| - k
      {
        Node(hole[..], hole_head, free_slots, list, unused, holes, k);
        if biggest_hole != NIL_HOLE { Node(hole[..], hole_head, free_slots, list, unused, holes, b); }
        WorstExtend(holes, k, clicks, swap_base, biggest_hole != NIL_HOLE, b);
        if hole[hp].h_len >= clicks && (biggest_hole == NIL_HOLE || hole[hp].h_len > hole[biggest_hole].h_len) {
          prev_biggest_hole, biggest_hole, b := prev_ptr, hp, k;
        }
        prev_ptr, hp, k := hp, hole[hp].h_next, k + 1;
        if k < |list| { Node(hole[..], hole_head, free_slots, list, unused, holes, k); }
      }
      BeyondSwapBase(holes, k, clicks, swap_base);
    }

    /** The first hole of the swap area of at least `size`. */
    method FindSwapHole(size: nat, swap_base: nat) returns (hp: int, prev_ptr: int, ghost k: nat)
      requires Valid()
      ensures hp == NIL_HOLE ==> !SwapRoom(holes, size, swap_base)
      ensures hp != NIL_HOLE ==> IsSwapHole(holes, size, swap_base, k) && list[k] == hp
      ensures hp != NIL_HOLE ==> k > 0 ==> prev_ptr == list[k - 1]
    {
      hide WellLinked;
      Heads(hole[..], hole_head, free_slots, list, unused, holes);
      if list != [] { Node(hole[..], hole_head, free_slots, list, unused, holes, 0); }
      hp, prev_ptr, k := hole_head, NIL_HOLE, 0;
      while hp != NIL_HOLE
        invariant k <= |list| && hp == After(list, k - 1, NIL)
        invariant k > 0 ==> prev_ptr == list[k - 1]
        invariant k < |list| ==> 0 <= hp
        invariant forall i :: 0 <= i < k ==> !InSwap(holes[i], size, swap_base)
        decreases |list| - k
      {
        Node(hole[..], hole_head, free_slots, list, unused, holes, k);
        if hole[hp].h_base >= swap_base && hole[hp].h_len >= size { return; }
        prev_ptr, hp, k := hp, hole[hp].h_next, k + 1;
        if k < |list| { Node(hole[..], hole_head, free_slots, list, unused, holes, k); }
      }
    }

    /** Give hole p the memory of its successor, if the two touch. */
    method AbsorbNext(hp: int, ghost p: nat) returns (touched: bool)
      requires Valid() && p + 1 < |list| && list[p] == hp
      modifies this, hole
      ensures Valid()
      ensures touched == old(Touches(holes, p))
      ensures holes == old(Absorb(holes, p))
      ensures list == if touched then old(Without(list, p + 1)) else old(list)
      ensures !touched ==> holes == old(holes)
    {
      hide WellLinked;
      Node(hole[..], hole_head, free_slots, list, unused, holes, p);
      Node(hole[..], hole_head, free_slots, list, unused, holes, p + 1);
      var next_ptr := hole[hp].h_next;
      var both := Block(hole[hp].h_base, hole[hp].h_len + hole[next_ptr].h_len);
      touched := hole[hp].h_base + hole[hp].h_len == hole[next_ptr].h_base;
      if touched {
        AbsorbInSteps(holes, p);
        SetBlock(hp, both, p);
        DelSlot(hp, next_ptr, p + 1);
      }
    }

    /** Join the touching holes among hole p and its two successors. */
    method MergeFrom(start: int, ghost p: nat)
      requires Valid() && p < |list| && list[p] == start
      modifies this, hole
      ensures Valid()
      ensures holes == old(HoleList.Merge(holes, p))
    {
      hide WellLinked, Absorb, Touches;
      var hp := start;
      ghost var q := p;
      Node(hole[..], hole_head, free_slots, list, unused, holes, p);
      if p + 1 < |list| { Node(hole[..], hole_head, free_slots, list, unused, holes, p + 1); }
      if hole[hp].h_next == NIL_HOLE { return; }
      var next_ptr := hole[hp].h_next;
      var touched := AbsorbNext(hp, p);
      if !touched {
        hp, q := next_ptr, p + 1;
      }
      Node(hole[..], hole_head, free_slots, list, unused, holes, q);
      if q + 1 < |list| { Node(hole[..], hole_head, free_slots, list, unused, holes, q + 1); } else { AbsorbLast(holes, q); }
      if hole[hp].h_next == NIL_HOLE { return; }
      touched := AbsorbNext(hp, q);
    }

    /** Put the first unused slot, holding block b, in as hole k. */
    method LinkIn(prev_ptr: int, b: Block, ghost k: nat) returns (new_ptr: int)
      requires Valid() && unused != [] && k <= |list|
      requires prev_ptr == if k == 0 then NIL_HOLE else list[k - 1]
      modifies this, hole
      ensures Valid()
      ensures list == Inserted(old(list), k, new_ptr)
      ensures unused == old(unused[1..])
      ensures holes == Inserted(old(holes), k, b)
    {
      hide WellLinked;
      ghost var t := hole[..];
      LinkInLinks(t, hole_head, free_slots, list, unused, holes, k, b);
      new_ptr := free_slots;
      free_slots := hole[new_ptr].h_next;
      ghost var succ := if k == 0 then hole_head else t[prev_ptr].h_next;
      if prev_ptr == NIL_HOLE {
        hole[new_ptr] := Slot(hole_head, b.base, b.len);
        hole_head := new_ptr;
      } else {
        hole[new_ptr] := Slot(hole[prev_ptr].h_next, b.base, b.len);
        hole[prev_ptr] := hole[prev_ptr].(h_next := new_ptr);
      }
      assert hole[..] == LinkedIn(t, prev_ptr, new_ptr, succ, b);
      list := Inserted(list, k, new_ptr);
      unused := unused[1..];
      holes := Inserted(holes, k, b);
    }

    /** The place of a block in address order. */
    method FindPlace(base: nat) returns (prev_ptr: int, ghost k: nat)
      requires Valid()
      ensures k <= |list| && prev_ptr == if k == 0 then NIL_HOLE else list[k - 1]
      ensures forall i :: 0 <= i < k ==> holes[i].base < base
      ensures k > 0 ==> prev_ptr != NIL_HOLE
      ensures k < |holes| ==> base <= holes[k].base
      ensures var p := Position(holes, base); p <= |list| && prev_ptr == if p == 0 then NIL_HOLE else list[p - 1]
    {
      hide WellLinked;
      Heads(hole[..], hole_head, free_slots, list, unused, holes);
      var hp := hole_head;
      prev_ptr, k := NIL_HOLE, 0;
      if list != [] { Node(hole[..], hole_head, free_slots, list, unused, holes, 0); }
      while hp != NIL_HOLE && base > hole[hp].h_base
        invariant k <= |list| && hp == After(list, k - 1, NIL)
        invariant k < |list| ==> 0 <= hp < hole.Length && hole[hp].h_base == holes[k].base
        invariant prev_ptr == if k == 0 then NIL_HOLE else list[k - 1]
        invariant k > 0 ==> prev_ptr != NIL_HOLE
        invariant forall i :: 0 <= i < k ==> holes[i].base < base
        decreases |list| - k
      {
        Node(hole[..], hole_head, free_slots, list, unused, holes, k);
        prev_ptr, hp, k := hp, hole[hp].h_next, k + 1;
        if k < |list| { Node(hole[..], hole_head, free_slots, list, unused, holes, k); }
      }
    }

    /** free_mem. `full` stands for the "Hole table full" panic. */
    method FreeMem(base: nat, clicks: nat) returns (full: bool)
      requires Valid()
      modifies this, hole
      ensures Valid()
      ensures full <==> clicks > 0 && |old(holes)| == hole.Length
      ensures holes == if full then old(holes) else Free(old(holes), Block(base, clicks))
    {
      hide WellLinked;
      full := false;
      if clicks == 0 { return; }
      Heads(hole[..], hole_head, free_slots, list, unused, holes);
      if free_slots == NIL_HOLE {
        full := true;
        return;
      }
      var b := Block(base, clicks);
      var prev_ptr, k := FindPlace(base);
      FreeIs(holes, b, k);
      var new_ptr := LinkIn(prev_ptr, b, k);
      if prev_ptr == NIL_HOLE {
        MergeFrom(new_ptr, 0);
      } else {
        MergeFrom(prev_ptr, k - 1);
      }
    }
  }
}
