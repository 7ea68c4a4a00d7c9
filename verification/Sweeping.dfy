/**
 The sweep: walking the living objects in address order rebuilds the free list, which becomes
 exactly the maximal gaps between them.
 */
module Sweeping {
  import opened Options
  import opened FreeList
  import opened Marking

  /** The word that freed memory is filled with when the collector checks itself. */
  const COLLECTED: nat := 1234567

  ghost predicate LivingOk(living: map<nat, nat>, lo: nat, hi: nat) {
    && (forall a | a in living :: lo <= a && living[a] > 0 && a + living[a] <= hi)
    && (forall a, b | a in living && b in living && a < b :: a + living[a] <= b)
  }

  ghost function Below(living: map<nat, nat>, n: nat): set<Region> {
    set a | a in living && a < n :: Region(a, living[a])
  }

  /** The living objects as blocks. */
  ghost function Blocks(living: map<nat, nat>): set<Region> {
    set a | a in living :: Region(a, living[a])
  }

  ghost predicate EndsAt(living: map<nat, nat>, x: nat) {
    exists a :: a in living && a + living[a] == x
  }

  ghost predicate Occupied(living: map<nat, nat>, x: nat) {
    exists a :: a in living && a <= x < a + living[a]
  }

  /** A stretch of words without living objects, between living objects or the pool's ends. */
  ghost predicate Gap(living: map<nat, nat>, lo: nat, hi: nat, b: Region) {
    && b.size > 0 && lo <= b.place && b.place + b.size <= hi
    && (forall x: nat | Inside(x, b) :: !Occupied(living, x))
    && (b.place == lo || EndsAt(living, b.place))
    && (b.place + b.size == hi || b.place + b.size in living)
  }

  /** `living_objects.lower_bound`: the first living object at or after an address. */
  function NextLiving(living: map<nat, nat>, x: nat, hi: nat): (r: Option<nat>)
    ensures r.None? ==> forall a | x <= a < hi :: a !in living
    ensures r.Some? ==> r.value in living && x <= r.value < hi && forall a | x <= a < r.value :: a !in living
    decreases hi - x
  {
    if x >= hi then None
    else if x in living then Some(x)
    else NextLiving(living, x + 1, hi)
  }

  /** The walk has come to x: everything before is a living object or a gap that was found. */
  ghost predicate Swept(living: map<nat, nat>, free: seq<Region>, lo: nat, x: nat) {
    && lo <= x
    && Sorted(free) && Distinct(free) && Elements(free) !! Below(living, x)
    && Tiles(Elements(free) + Below(living, x), lo, x)
    && Sum(free) + SumBelow(living, x) == x - lo
  }

  ghost predicate GapsOnly(living: map<nat, nat>, free: seq<Region>, lo: nat, hi: nat) {
    forall b | b in Elements(free) :: Gap(living, lo, hi, b)
  }

  lemma {:induction false} SumOfNone(living: map<nat, nat>, x: nat, y: nat)
    requires x <= y && forall a | x <= a < y :: a !in living
    ensures SumBelow(living, y) == SumBelow(living, x)
  {
    if x < y { SumOfNone(living, x, y - 1); }
  }

  lemma SumOfOne(living: map<nat, nat>, lo: nat, hi: nat, a: nat)
    requires LivingOk(living, lo, hi) && a in living
    ensures SumBelow(living, a + living[a]) == SumBelow(living, a) + living[a]
  {
    SumOfNone(living, a + 1, a + living[a]);
  }

  /** Adding the block from x to y to a tiling that ends at x. */
  lemma ExtendTile(blocks: set<Region>, lo: nat, x: nat, y: nat)
    requires Tiles(blocks, lo, x) && lo <= x < y
    ensures Tiles(blocks + {Region(x, y - x)}, lo, y) && Region(x, y - x) !in blocks
  {
    var more := blocks + {Region(x, y - x)};
    forall z: nat | lo <= z < y ensures Covered(z, more) {
      if z < x {
        assert Covered(z, blocks);
        var b :| b in blocks && Inside(z, b);
        assert b in more;
      } else {
        assert Inside(z, Region(x, y - x));
      }
    }
  }

  lemma BelowSame(living: map<nat, nat>, x: nat, y: nat)
    requires x <= y && forall a | x <= a < y :: a !in living
    ensures Below(living, y) == Below(living, x)
  {
  }

  lemma BelowOne(living: map<nat, nat>, lo: nat, hi: nat, a: nat)
    requires LivingOk(living, lo, hi) && a in living
    ensures Below(living, a + living[a]) == Below(living, a) + {Region(a, living[a])}
  {
    assert forall b | b in living && a < b :: a + living[a] <= b;
  }

  /** The gap from x to y is put in the free list. */
  lemma SweepGap(living: map<nat, nat>, free: seq<Region>, lo: nat, x: nat, y: nat)
    requires Swept(living, free, lo, x) && x < y && forall a | x <= a < y :: a !in living
    ensures Swept(living, Insert(free, Region(x, y - x)), lo, y)
    ensures Elements(Insert(free, Region(x, y - x))) == Elements(free) + {Region(x, y - x)}
  {
    hide Sorted, Distinct, Tiles, Sum, SumBelow, Insert, Below;
    var gap := Region(x, y - x);
    BelowSame(living, x, y);
    SumOfNone(living, x, y);
    ExtendTile(Elements(free) + Below(living, x), lo, x, y);
    assert gap !in Elements(free) + Below(living, x);
    InsertSum(free, gap);
    InsertElements(free, gap);
    InsertOrder(free, gap);
    var blocks := Elements(Insert(free, gap)) + Below(living, y);
    assert blocks == Elements(free) + Below(living, x) + {gap};
  }

  /** The living object at x is passed over. */
  lemma SweepLiving(living: map<nat, nat>, free: seq<Region>, lo: nat, hi: nat, x: nat)
    requires LivingOk(living, lo, hi) && Swept(living, free, lo, x) && x in living
    ensures Swept(living, free, lo, x + living[x])
  {
    hide Sorted, Distinct, Tiles, Sum, SumBelow, Below;
    BelowOne(living, lo, hi, x);
    SumOfOne(living, lo, hi, x);
    ExtendTile(Elements(free) + Below(living, x), lo, x, x + living[x]);
    var blocks := Elements(free) + Below(living, x + living[x]);
    assert blocks == Elements(free) + Below(living, x) + {Region(x, living[x])};
  }

  lemma GapFound(living: map<nat, nat>, lo: nat, hi: nat, x: nat, y: nat)
    requires LivingOk(living, lo, hi) && lo <= x < y <= hi && forall a | x <= a < y :: a !in living
    requires x == lo || EndsAt(living, x)
    requires y == hi || y in living
    ensures Gap(living, lo, hi, Region(x, y - x))
  {
    forall a | a in living && a < x ensures a + living[a] <= x {
      if x != lo {
        var b :| b in living && b + living[b] == x;
      }
    }
  }

  /** A word that no living object holds lies in a free block. */
  lemma FreeWord(living: map<nat, nat>, free: seq<Region>, lo: nat, hi: nat, x: nat) returns (b: Region)
    requires Tiles(Elements(free) + Blocks(living), lo, hi) && lo <= x < hi && !Occupied(living, x)
    ensures b in Elements(free) && Inside(x, b)
  {
    assert Covered(x, Elements(free) + Blocks(living));
    b :| b in Elements(free) + Blocks(living) && Inside(x, b);
  }

  /** Gaps that share a word are the same. */
  lemma OneGap(living: map<nat, nat>, lo: nat, hi: nat, b: Region, c: Region, x: nat)
    requires LivingOk(living, lo, hi) && Gap(living, lo, hi, b) && Gap(living, lo, hi, c) && Inside(x, b)
    requires Inside(x, c)
    ensures b == c
  {
    GapStart(living, lo, hi, b, c, x);
    GapStart(living, lo, hi, c, b, x);
    GapEnd(living, lo, hi, b, c, x);
    GapEnd(living, lo, hi, c, b, x);
  }

  lemma GapStart(living: map<nat, nat>, lo: nat, hi: nat, b: Region, c: Region, x: nat)
    requires LivingOk(living, lo, hi) && Gap(living, lo, hi, b) && Gap(living, lo, hi, c) && Inside(x, b)
    requires Inside(x, c)
    ensures c.place <= b.place
  {
    if b.place < c.place {
      var a :| a in living && a + living[a] == c.place;
      assert Occupied(living, c.place - 1);
      assert Inside(c.place - 1, b);
    }
  }

  lemma GapEnd(living: map<nat, nat>, lo: nat, hi: nat, b: Region, c: Region, x: nat)
    requires LivingOk(living, lo, hi) && Gap(living, lo, hi, b) && Gap(living, lo, hi, c) && Inside(x, b)
    requires Inside(x, c)
    ensures b.place + b.size <= c.place + c.size
  {
    var e := c.place + c.size;
    if e < b.place + b.size {
      assert Occupied(living, e);
      assert Inside(e, b);
    }
  }

  /** What the sweep leaves: the free list tiles the pool together with the living objects,
      and holds exactly the maximal gaps. */
  ghost predicate SweepDone(living: map<nat, nat>, free: seq<Region>, lo: nat, hi: nat) {
    && PoolOk(free, Blocks(living), hi - lo - SumBelow(living, hi), lo, hi)
    && (forall b :: b in free <==> Gap(living, lo, hi, b))
  }

  lemma SweepEnds(living: map<nat, nat>, free: seq<Region>, lo: nat, hi: nat)
    requires LivingOk(living, lo, hi) && Swept(living, free, lo, hi) && GapsOnly(living, free, lo, hi)
    ensures SweepDone(living, free, lo, hi)
  {
    hide Sorted, Distinct, Sum, SumBelow;
    assert Below(living, hi) == Blocks(living);
    forall b | Gap(living, lo, hi, b) ensures b in free {
      assert Inside(b.place, b);
      var c := FreeWord(living, free, lo, hi, b.place);
      OneGap(living, lo, hi, b, c, b.place);
    }
    assert forall b :: b in free <==> b in Elements(free);
  }

  /** Fills freed words. */
  method Fill(memory: array<nat>, from: nat, to: nat)
    requires from <= to <= memory.Length
    modifies memory
    ensures forall x | 0 <= x < memory.Length :: memory[x] == if from <= x < to then COLLECTED else old(memory[x])
  {
    for x := from to to
      invariant forall z | 0 <= z < memory.Length :: memory[z] == if from <= z < x then COLLECTED else old(memory[z])
    {
      memory[x] := COLLECTED;
    }
  }

  /** How far the filling has come. */
  ghost predicate Written(mem: seq<nat>, before: seq<nat>, living: map<nat, nat>, lo: nat, x: nat, debug: bool) {
    |mem| == |before| && forall z | 0 <= z < |mem| ::
      mem[z] == if debug && lo <= z < x && !Occupied(living, z) then COLLECTED else before[z]
  }

  lemma WrittenGap(mem: seq<nat>, mem': seq<nat>, before: seq<nat>, living: map<nat, nat>, lo: nat, hi: nat, x: nat,
      y: nat, debug: bool)
    requires Written(mem, before, living, lo, x, debug) && x < y && Gap(living, lo, hi, Region(x, y - x))
    requires |mem'| == |mem| && forall z | 0 <= z < |mem| ::
      mem'[z] == if debug && x <= z < y then COLLECTED else mem[z]
    ensures Written(mem', before, living, lo, y, debug)
  {
    hide Occupied, EndsAt;
    forall z | 0 <= z < |mem'|
      ensures mem'[z] == if debug && lo <= z < y && !Occupied(living, z) then COLLECTED else before[z]
    {
      if x <= z < y { assert Inside(z, Region(x, y - x)); }
    }
  }

  lemma WrittenLiving(mem: seq<nat>, before: seq<nat>, living: map<nat, nat>, lo: nat, x: nat, debug: bool)
    requires Written(mem, before, living, lo, x, debug) && x in living
    ensures Written(mem, before, living, lo, x + living[x], debug)
  {
  }

  lemma GapsOnlyMore(living: map<nat, nat>, free: seq<Region>, lo: nat, hi: nat, b: Region)
    requires GapsOnly(living, free, lo, hi) && Gap(living, lo, hi, b)
    ensures GapsOnly(living, Insert(free, b), lo, hi)
  {
    hide Gap, Insert;
    InsertElements(free, b);
  }

  lemma SweepStarts(living: map<nat, nat>, lo: nat, hi: nat)
    requires LivingOk(living, lo, hi)
    ensures Swept(living, [], lo, lo) && GapsOnly(living, [], lo, hi)
  {
    SumOfNone(living, 0, lo);
    assert Below(living, lo) == {};
  }

  /** `sweepy_sweep`, the part about memory. Only words of free blocks are written. */
  method SweepMemory(memory: array<nat>, living: map<nat, nat>, lo: nat, debug: bool) returns (free: seq<Region>)
    requires LivingOk(living, lo, memory.Length) && lo <= memory.Length
    modifies memory
    ensures SweepDone(living, free, lo, memory.Length)
    ensures forall x | 0 <= x < memory.Length ::
      memory[x] == if debug && x >= lo && !Occupied(living, x) then COLLECTED else old(memory[x])
  {
    hide Swept, Gap, GapsOnly, Elements, Occupied, Insert, SweepDone;
    ghost var hi, before := memory.Length, memory[..];
    free := [];
    var x := lo;
    var next := NextLiving(living, x, memory.Length);
    SweepStarts(living, lo, hi);
    while next.Some?
      invariant lo <= x <= memory.Length && (x == lo || EndsAt(living, x))
      invariant next == NextLiving(living, x, memory.Length)
      invariant Swept(living, free, lo, x) && GapsOnly(living, free, lo, hi)
      invariant Written(memory[..], before, living, lo, x, debug)
      decreases memory.Length - x
    {
      var a := next.value;
      if a != x { free := AddGap(memory, before, living, free, lo, x, a, debug); }
      SweepLiving(living, free, lo, hi, a);
      WrittenLiving(memory[..], before, living, lo, a, debug);
      x := a + living[a];
      next := NextLiving(living, x, memory.Length);
    }
    if x < memory.Length { free := AddGap(memory, before, living, free, lo, x, memory.Length, debug); }
    SweepEnds(living, free, lo, hi);
  }

  /** One free stretch: filled, and put in the free list. */
  method AddGap(memory: array<nat>, ghost before: seq<nat>, living: map<nat, nat>, free: seq<Region>, lo: nat, x: nat,
      y: nat, debug: bool)
      returns (more: seq<Region>)
    requires LivingOk(living, lo, memory.Length) && lo <= x < y <= memory.Length && forall a | x <= a < y ::
      a !in living
    requires x == lo || EndsAt(living, x)
    requires y == memory.Length || y in living
    requires Swept(living, free, lo, x) && GapsOnly(living, free, lo, memory.Length)
    requires Written(memory[..], before, living, lo, x, debug)
    modifies memory
    ensures Swept(living, more, lo, y) && GapsOnly(living, more, lo, memory.Length)
    ensures Written(memory[..], before, living, lo, y, debug)
  {
    hide Swept, Gap, GapsOnly, EndsAt, Elements, Insert, LivingOk, Written;
    ghost var mem := memory[..];
    GapFound(living, lo, memory.Length, x, y);
    if debug { Fill(memory, x, y); }
    WrittenGap(mem, memory[..], before, living, lo, memory.Length, x, y, debug);
    SweepGap(living, free, lo, x, y);
    GapsOnlyMore(living, free, lo, memory.Length, Region(x, y - x));
    more := Insert(free, Region(x, y - x));
  }
}
