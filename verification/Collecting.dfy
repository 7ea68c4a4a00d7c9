/**
 The collector: allocation from the free list, and a whole collection, which keeps exactly
 what the roots reach and gives back the rest.
 */
module Collecting {
  import opened Options
  import opened FunctionPool
  import opened FreeList
  import opened Heap
  import opened Tags
  import opened Marking
  import opened Sweeping

  datatype Allocation = Allocated(place: nat) | OutOfMemory | Refused

  /** All that the collector works on, as a value. `owned` are the blocks in use. */
  datatype State = State(
    h: Heap, typeRoots: seq<nat>, eventRoots: seq<nat>,
    free: seq<Region>, count: int, flags: seq<bv64>, owned: set<Region>)

  function RootSet(s: State): set<Item> {
    Roots(s.h, s.typeRoots, s.eventRoots)
  }

  /** The pool is tiled, and the count is the number of free words. */
  ghost predicate Accounted(s: State) {
    PoolOk(s.free, s.owned, s.count, POOL_START, |s.h.mem|) && POOL_START <= |s.h.mem|
  }

  /** The heap can be traced: it is well typed, and its functions have slots that are taken. */
  ghost predicate Traceable(s: State, layout: Layout) {
    && WellTyped(s.h, layout) && RootsOk(s.h, layout, s.typeRoots, s.eventRoots)
    && forall w | w in s.h.functions :: Has(s.flags, s.h.functions[w].slot)
  }

  /** The words the collector keeps of what the roots reach. */
  ghost predicate Keeps(s: State, layout: Layout, kept: map<nat, nat>) {
    && (forall a :: a in kept <==> Reachable(s.h, layout, RootSet(s), Obj(a)))
    && (forall a | a in kept :: a in layout && kept[a] == Recorded(s.h.mem, a, layout[a]))
  }

  /** The free blocks become the maximal gaps between the kept blocks; kept words do not change. */
  ghost predicate MemoryCollected(s: State, s': State, kept: map<nat, nat>, debug: bool) {
    && |s'.h.mem| == |s.h.mem|
    && SweepDone(kept, s'.free, POOL_START, |s.h.mem|)
    && s'.owned == Blocks(kept)
    && s'.count == Sum(s'.free)
    && (forall x: nat | x < |s.h.mem| ::
          s'.h.mem[x] == if debug && x >= POOL_START && !Occupied(kept, x) then COLLECTED else s.h.mem[x])
  }

  /** The functions that are not reached are gone, and their slots are free. */
  ghost predicate FunctionsCollected(s: State, s': State, layout: Layout) {
    && (forall w :: w in s'.h.functions <==> w in s.h.functions && Reachable(s.h, layout, RootSet(s), Func(w)))
    && (forall w | w in s'.h.functions :: s'.h.functions[w] == s.h.functions[w])
    && (forall z :: Has(s'.flags, z) <==> exists w :: w in s'.h.functions && s'.h.functions[w].slot == z)
  }

  /** A collection. */
  ghost predicate Collected(s: State, s': State, layout: Layout, kept: map<nat, nat>, debug: bool) {
    && Keeps(s, layout, kept) && LivingOk(kept, POOL_START, |s.h.mem|)
    && MemoryCollected(s, s', kept, debug) && FunctionsCollected(s, s', layout)
    && s'.typeRoots == s.typeRoots && s'.eventRoots == s.eventRoots && s'.h.vectorOfAsts == s.h.vectorOfAsts
  }

  /** Living objects do not overlap and fit in the pool. */
  lemma KeptAreLiving(s: State, layout: Layout, kept: map<nat, nat>)
    requires WellTyped(s.h, layout)
    requires forall a | a in kept :: a in layout && kept[a] == Recorded(s.h.mem, a, layout[a])
    ensures LivingOk(kept, POOL_START, |s.h.mem|)
  {
    forall a | a in kept
      ensures POOL_START <= a && 1 <= kept[a] && a + kept[a] <= |s.h.mem| && kept[a] <= Extent(s.h.mem, a, layout[a])
    {
      ExtentPositive(s.h, layout, a);
    }
    hide ObjectOk, WordsOk, SimpleType;
  }

  class Collector {
    const marker: Marker
    var freeMemory: seq<Region>
    var typeRoots: seq<nat>
    var eventRoots: seq<nat>
    var memoryBeingTraced: bool
    ghost var owned: set<Region>

    ghost function Value(): State
      reads this, marker, marker.memory, marker.pool, marker.pool.flags
    {
      State(Heap(marker.memory[..], marker.functions, marker.vectorOfAsts), typeRoots, eventRoots,
            freeMemory, marker.freeMemoryCount, marker.pool.flags[..], owned)
    }

    ghost predicate Valid()
      reads this, marker, marker.memory, marker.pool, marker.pool.flags
    {
      && marker.pool.Valid() && !memoryBeingTraced
      && (marker.memory as object) != marker.pool.flags && (marker.memory as object) != marker.pool.sweepFlags
      && marker.living == map[] && POOL_START <= marker.memory.Length
      && Accounted(Value())
    }

    /** A pool of free memory. */
    constructor (memory: array<nat>, pool: FunctionPool)
      requires POOL_START < memory.Length && pool.Valid()
      requires (memory as object) != pool.flags && (memory as object) != pool.sweepFlags
      ensures Valid() && fresh(marker) && marker.memory == memory && marker.pool == pool
      ensures Value().free == [Region(POOL_START, memory.Length - POOL_START)] && Value().owned == {}
    {
      marker := new Marker(memory, pool);
      freeMemory := [Region(POOL_START, memory.Length - POOL_START)];
      typeRoots, eventRoots := [], [];
      memoryBeingTraced := false;
      owned := {};
      new;
      marker.living := map[];
      marker.freeMemoryCount := memory.Length - POOL_START;
      ghost var b := freeMemory[0];
      assert forall x: nat | POOL_START <= x < memory.Length :: Inside(x, b);
      assert Sum(freeMemory[1..]) == 0;
      assert Elements(freeMemory) + owned == {b};
    }

    /** `allocate`. */
    method Allocate(size: nat) returns (r: Allocation)
      requires Valid()
      modifies this`freeMemory, this`owned, marker`freeMemoryCount
      ensures r.Refused? <==> size == 0
      ensures r.OutOfMemory? <==> size > 0 && Take(old(freeMemory), size).None?
      ensures !r.Allocated? ==> freeMemory == old(freeMemory)
      ensures r.Allocated? ==> Valid() && Take(old(freeMemory), size) == Some((freeMemory, r.place))
      ensures r.Allocated? ==> Value() == old(Value()).(free := freeMemory, count := old(Value()).count - size,
        owned := old(owned) + {Region(r.place, size)})
    {
      hide Take, LowerBound, Insert, Remove, Sum, Tiles, Sorted, Distinct, Elements;
      marker.freeMemoryCount := marker.freeMemoryCount - size;
      if size == 0 { return Refused; }
      var i := LowerBound(freeMemory, size);
      if i == |freeMemory| {
        TakeNone(freeMemory, size);
        return OutOfMemory;
      }
      ghost var b := TakeKeepsTiling(freeMemory, owned, marker.freeMemoryCount + size, POOL_START, marker.memory.Length,
          size);
      TakeUnfolds(freeMemory, size, i);
      var found := freeMemory[i];
      if found.size == size {
        freeMemory := Remove(freeMemory, i);
      } else {
        freeMemory := Insert(Remove(freeMemory, i), Region(found.place + size, found.size - size));
      }
      owned := owned + {Region(found.place, size)};
      return Allocated(found.place);
    }

    /** `start_GC`. */
    method StartGC(debug: bool, ghost layout: Layout) returns (ghost kept: map<nat, nat>)
      requires Valid() && Traceable(Value(), layout)
      modifies this, marker, marker.memory, marker.pool, marker.pool.flags, marker.pool.sweepFlags
      ensures Valid() && Collected(old(Value()), Value(), layout, kept, debug)
      ensures Finalized(old(marker.pool.finalized), marker.pool.finalized, old(marker.pool.flags[..]),
        marker.pool.flags[..])
    {
      hide Traceable, Accounted, Collected, Finalized, PoolOk, Has;
      ghost var s := Value();
      marker.freeMemoryCount := marker.memory.Length - POOL_START;
      kept := TraceObjects(debug, s, layout);
    }

    /** The collector's fields hold the state s, apart from the count of free words. */
    ghost predicate Holds(s: State)
      reads this, marker, marker.memory, marker.pool, marker.pool.flags
    {
      && marker.pool.Valid()
      && (marker.memory as object) != marker.pool.flags && (marker.memory as object) != marker.pool.sweepFlags
      && s.h == Heap(marker.memory[..], marker.functions, marker.vectorOfAsts)
      && s.typeRoots == typeRoots && s.eventRoots == eventRoots && s.flags == marker.pool.flags[..]
    }

    /** `trace_objects`: marks from the roots, then sweeps. */
    method TraceObjects(debug: bool, ghost s: State, ghost layout: Layout) returns (ghost kept: map<nat, nat>)
      requires Holds(s) && Traceable(s, layout) && marker.living == map[] && POOL_START <= marker.memory.Length
      requires marker.freeMemoryCount == marker.memory.Length - POOL_START
      modifies this, marker, marker.memory, marker.pool, marker.pool.flags, marker.pool.sweepFlags
      ensures Valid() && Collected(s, Value(), layout, kept, debug)
      ensures Finalized(old(marker.pool.finalized), marker.pool.finalized, s.flags, marker.pool.flags[..])
    {
      hide Traceable, Reachable, WellTyped, Has, LivingOk, RootsOk, Agrees, Keeps, Within, Collected, Accounted,
        Finalized, MarksAre;
      memoryBeingTraced := true;
      marker.pool.ClearMarks();
      marker.marked := {};
      StartsTraced(s, layout, marker.pool.sweepFlags[..], marker.freeMemoryCount);
      marker.TraceRoots(typeRoots, eventRoots, s.h, layout);
      kept := marker.living;
      TracedFacts(s, layout, marker.marked, kept, marker.pool.sweepFlags[..], marker.freeMemoryCount);
      SweepySweep(debug, s, layout, kept);
      memoryBeingTraced := false;
    }

    /** `sweepy_sweep`: rebuilds the free list, and finalizes the functions that are not marked. */
    method SweepySweep(debug: bool, ghost s: State, ghost layout: Layout, ghost kept: map<nat, nat>)
      requires Holds(s) && marker.living == kept && POOL_START <= marker.memory.Length
      requires Keeps(s, layout, kept) && LivingOk(kept, POOL_START, |s.h.mem|)
      requires marker.freeMemoryCount == |s.h.mem| - POOL_START - SumBelow(kept, |s.h.mem|)
      requires Within(marker.pool.sweepFlags[..], s.flags) && MarksAre(s, layout, marker.pool.sweepFlags[..])
      modifies this, marker, marker.memory, marker.pool, marker.pool.flags
      ensures Holds(Value()) && marker.living == map[] && POOL_START <= marker.memory.Length && Accounted(Value())
      ensures Collected(s, Value(), layout, kept, debug)
      ensures Finalized(old(marker.pool.finalized), marker.pool.finalized, s.flags, marker.pool.flags[..])
    {
      hide Reachable, Has, LivingOk, Keeps, SumBelow, Occupied, PoolOk, Gap, SweepDone, MarksAre, Within, Blocks, Sum,
        Elements;
      hide Accounted, Collected;
      freeMemory := SweepMemory(marker.memory, marker.living, POOL_START, debug);
      marker.living := map[];
      owned := Blocks(kept);
      marker.pool.SweepFunctions();
      var flags, functions := marker.pool.flags, marker.functions;
      marker.functions := map w | w in functions && Has(flags[..], functions[w].slot) :: functions[w];
      SweptIsCollected(s, Value(), layout, kept, debug);
    }
  }

  lemma TakeNone(free: seq<Region>, size: nat)
    requires LowerBound(free, size) == |free|
    ensures Take(free, size).None?
  {
  }

  /** The marks are the slots of the functions that are reached. */
  ghost predicate MarksAre(s: State, layout: Layout, flags: seq<bv64>) {
    && (forall w | w in s.h.functions :: Has(flags, s.h.functions[w].slot)
         <==> Reachable(s.h, layout, RootSet(s), Func(w)))
    && (forall z | Has(flags, z) :: exists w :: w in s.h.functions && s.h.functions[w].slot == z)
  }

  /** The finalizers that ran: those of the slots that were taken and are not any more, each once. */
  ghost predicate Finalized(before: seq<Slot>, after: seq<Slot>, flags: seq<bv64>, flags': seq<bv64>) {
    && before <= after
    && (forall z :: z in after[|before|..] <==> Has(flags, z) && !Has(flags', z))
    && (forall i, j | |before| <= i < j < |after| :: after[i] != after[j])
  }

  lemma StartsTraced(s: State, layout: Layout, marks: seq<bv64>, count: int)
    requires Traceable(s, layout) && |marks| == |s.flags| && forall z :: !Has(marks, z)
    requires count == |s.h.mem| - POOL_START
    ensures forall w | w in s.h.functions :: SlotOk(marks, s.h.functions[w].slot)
    ensures Agrees(s.h, layout, {}, map[], marks, count)
    ensures WellTyped(s.h, layout) && RootsOk(s.h, layout, s.typeRoots, s.eventRoots)
  {
    hide WellTyped, RootsOk;
    SumBelowNone(|s.h.mem|);
  }

  lemma TracedFacts(s: State, layout: Layout, marked: set<Item>, living: map<nat, nat>, marks: seq<bv64>, count: int)
    requires Traceable(s, layout) && Agrees(s.h, layout, marked, living, marks, count) && |marks| == |s.flags|
    requires forall a :: a in living <==> Reachable(s.h, layout, RootSet(s), Obj(a))
    requires forall w | w in s.h.functions ::
      Has(marks, s.h.functions[w].slot) <==> Reachable(s.h, layout, RootSet(s), Func(w))
    ensures Keeps(s, layout, living) && LivingOk(living, POOL_START, |s.h.mem|)
    ensures Within(marks, s.flags) && MarksAre(s, layout, marks)
    ensures count == |s.h.mem| - POOL_START - SumBelow(living, |s.h.mem|)
  {
    hide WellTyped, RootsOk, Reachable, Has, LivingOk, Recorded;
    forall a | a in living ensures a in layout { assert Obj(a) in Items(s.h, layout); }
    KeptAreLiving(s, layout, living);
  }

  lemma SweptCount(kept: map<nat, nat>, free: seq<Region>, hi: nat)
    requires SweepDone(kept, free, POOL_START, hi)
    ensures Sum(free) == hi - POOL_START - SumBelow(kept, hi)
    ensures PoolOk(free, Blocks(kept), Sum(free), POOL_START, hi)
  {
  }

  /** What the two sweeps leave is a collection. */
  lemma SweptIsCollected(s: State, s': State, layout: Layout, kept: map<nat, nat>, debug: bool)
    requires Keeps(s, layout, kept) && LivingOk(kept, POOL_START, |s.h.mem|) && MarksAre(s, layout, s'.flags)
    requires |s'.h.mem| == |s.h.mem| && POOL_START <= |s.h.mem| && SweepDone(kept, s'.free, POOL_START, |s.h.mem|)
    requires s'.owned == Blocks(kept) && s'.count == |s.h.mem| - POOL_START - SumBelow(kept, |s.h.mem|)
    requires forall x: nat | x < |s.h.mem| ::
      s'.h.mem[x] == if debug && x >= POOL_START && !Occupied(kept, x) then COLLECTED else s.h.mem[x]
    requires s'.h.functions == map w | w in s.h.functions && Has(s'.flags, s.h.functions[w].slot) :: s.h.functions[w]
    requires s'.typeRoots == s.typeRoots && s'.eventRoots == s.eventRoots && s'.h.vectorOfAsts == s.h.vectorOfAsts
    ensures Accounted(s') && Collected(s, s', layout, kept, debug)
  {
    hide Reachable, Has, LivingOk, Keeps, SumBelow, Occupied, PoolOk, SweepDone, MarksAre, Blocks, Sum;
    FunctionsKept(s, layout, s'.flags, s'.h.functions);
    SweptCount(kept, s'.free, |s.h.mem|);
  }

  lemma FunctionsKept(s: State, layout: Layout, flags: seq<bv64>, functions: map<nat, Function>)
    requires MarksAre(s, layout, flags)
    requires functions == map w | w in s.h.functions && Has(flags, s.h.functions[w].slot) :: s.h.functions[w]
    ensures forall w :: w in functions <==> w in s.h.functions && Reachable(s.h, layout, RootSet(s), Func(w))
    ensures forall w | w in functions :: functions[w] == s.h.functions[w]
    ensures forall z :: Has(flags, z) <==> exists w :: w in functions && functions[w].slot == z
  {
    hide Reachable, Has;
    forall z | Has(flags, z) ensures exists w :: w in functions && functions[w].slot == z {
      var w :| w in s.h.functions && s.h.functions[w].slot == z;
      assert w in functions;
    }
  }
}
