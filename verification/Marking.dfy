/**
 The mark phase: from a set of roots, exactly the reachable objects become `living_objects`,
 with the size to keep of each, and exactly the reachable functions are marked.
 */
module Marking {
  import opened FunctionPool
  import opened Heap
  import opened Tags

  // ---------------------------------------------------------------- what exploring achieves

  /** From m0 to m1, everything that the given items lead to was added, and nothing else. */
  ghost predicate Explored(h: Heap, layout: Layout, m0: set<Item>, m1: set<Item>, from: set<Item>) {
    && m0 <= m1 && from <= m1
    && forall x | x in m1 && x !in m0 :: Successors(h, layout, x) <= m1 && Reachable(h, layout, from, x)
  }

  lemma ExploredKnown(h: Heap, layout: Layout, m: set<Item>, from: set<Item>)
    requires from <= m
    ensures Explored(h, layout, m, m, from)
  {
  }

  lemma ExploredGrows(h: Heap, layout: Layout, m0: set<Item>, m1: set<Item>, from: set<Item>)
    requires Explored(h, layout, m0, m1, from)
    ensures m0 <= m1 && from <= m1
  {
  }

  lemma ExploredJoin(h: Heap, layout: Layout, m0: set<Item>, m1: set<Item>, m2: set<Item>, f1: set<Item>, f2: set<Item>)
    requires Explored(h, layout, m0, m1, f1) && Explored(h, layout, m1, m2, f2)
    ensures Explored(h, layout, m0, m2, f1 + f2)
  {
    hide Successors, Reachable;
    forall x | x in m2 && x !in m0 ensures Successors(h, layout, x) <= m2 && Reachable(h, layout, f1 + f2, x) {
      if x in m1 { ReachMore(h, layout, f1, f1 + f2, x); } else { ReachMore(h, layout, f2, f1 + f2, x); }
    }
  }

  /** Some successors of x were explored before x itself was recorded, the others after. */
  lemma ExploredItem(h: Heap, layout: Layout, m0: set<Item>, m1: set<Item>, m2: set<Item>, x: Item, f1: set<Item>,
      f2: set<Item>)
    requires Explored(h, layout, m0, m1, f1) && Explored(h, layout, m1 + {x}, m2, f2)
    requires Successors(h, layout, x) == f1 + f2
    ensures Explored(h, layout, m0, m2, {x})
  {
    hide Successors, Reachable;
    var next := Successors(h, layout, x);
    forall z | z in m2 && z !in m0 ensures Successors(h, layout, z) <= m2 && Reachable(h, layout, {x}, z) {
      if z in m1 {
        ReachMore(h, layout, f1, next, z);
        ReachThrough(h, layout, x, z);
      } else if z == x {
        ReachRoot(h, layout, {x}, x);
      } else {
        ReachMore(h, layout, f2, next, z);
        ReachThrough(h, layout, x, z);
      }
    }
  }

  lemma ExploredFound(h: Heap, layout: Layout, m0: set<Item>, m1: set<Item>, x: Item, f1: set<Item>)
    requires Explored(h, layout, m0, m1, f1) && f1 <= Successors(h, layout, x) && x in m1
    ensures Explored(h, layout, m0, m1, {x})
  {
    hide Successors, Reachable;
    forall z | z in m1 && z !in m0 ensures Reachable(h, layout, {x}, z) {
      ReachMore(h, layout, f1, Successors(h, layout, x), z);
      ReachThrough(h, layout, x, z);
    }
  }

  /** From nothing, exploring the roots gives exactly what they reach. */
  lemma ExploredIsReachable(h: Heap, layout: Layout, m: set<Item>, roots: set<Item>)
    requires Explored(h, layout, {}, m, roots)
    ensures forall i :: i in m <==> Reachable(h, layout, roots, i)
  {
    hide Successors, Reachable;
    forall i | Reachable(h, layout, roots, i) ensures i in m {
      ClosedHoldsReachable(h, layout, roots, m, i);
    }
  }

  // ---------------------------------------------------------------- sizes of living objects

  /** The sum of the sizes of the living objects below an address. */
  ghost function SumBelow(living: map<nat, nat>, n: nat): nat {
    if n == 0 then 0
    else SumBelow(living, n - 1) + if n - 1 in living then living[n - 1] else 0
  }

  lemma {:induction false} SumBelowAdd(living: map<nat, nat>, n: nat, a: nat, size: nat)
    requires a !in living
    ensures SumBelow(living[a := size], n) == SumBelow(living, n) + if a < n then size else 0
  {
    if n > 0 { SumBelowAdd(living, n - 1, a, size); }
  }

  lemma {:induction false} SumBelowNone(n: nat)
    ensures SumBelow(map[], n) == 0
  {
    if n > 0 { SumBelowNone(n - 1); }
  }

  // ---------------------------------------------------------------- the collector's state

  /** `living_objects` and the function marks record the marked items, and the count of free
      words is what the living objects leave of the pool. */
  ghost predicate Agrees(h: Heap, layout: Layout, marked: set<Item>, living: map<nat, nat>, flags: seq<bv64>,
      count: int)
  {
    && marked <= Items(h, layout)
    && (forall a :: a in living <==> Obj(a) in marked)
    && (forall a | a in living :: living[a] == Recorded(h.mem, a, layout[a]))
    && FunctionsAgree(h, marked, flags)
    && count + SumBelow(living, |h.mem|) == |h.mem| - POOL_START
  }

  ghost predicate FunctionsAgree(h: Heap, marked: set<Item>, flags: seq<bv64>) {
    && (forall w | w in h.functions :: Has(flags, h.functions[w].slot) <==> Func(w) in marked)
    && (forall s | Has(flags, s) :: exists w :: w in h.functions && h.functions[w].slot == s)
  }

  lemma AgreesMore(h: Heap, layout: Layout, marked: set<Item>, living: map<nat, nat>, flags: seq<bv64>, count: int,
      a: nat)
    requires WellTyped(h, layout) && Agrees(h, layout, marked, living, flags, count)
    requires a in layout && a !in living
    ensures var size := Recorded(h.mem, a, layout[a]);
      Agrees(h, layout, marked + {Obj(a)}, living[a := size], flags, count - size)
  {
    hide WellTyped, Has;
    ExtentPositive(h, layout, a);
    SumBelowAdd(living, |h.mem|, a, Recorded(h.mem, a, layout[a]));
  }

  class Marker {
    const memory: array<nat>
    const pool: FunctionPool
    var functions: map<nat, Function>
    var vectorOfAsts: nat
    var living: map<nat, nat>
    var freeMemoryCount: int
    ghost var marked: set<Item>

    ghost predicate Tracing(h: Heap, layout: Layout)
      reads this, memory, pool, pool.flags, pool.sweepFlags
    {
      && pool.Valid() && (memory as object) != pool.sweepFlags
      && h == Heap(memory[..], functions, vectorOfAsts)
      && WellTyped(h, layout)
      && (forall w | w in h.functions :: SlotOk(pool.sweepFlags[..], h.functions[w].slot))
      && Agrees(h, layout, marked, living, pool.sweepFlags[..], freeMemoryCount)
    }

    /** What is traced is this memory. */
    lemma Facts(h: Heap, layout: Layout)
      requires Tracing(h, layout)
      ensures memory[..] == h.mem && (memory as object) != pool.sweepFlags && WellTyped(h, layout)
      ensures functions == h.functions && vectorOfAsts == h.vectorOfAsts
    {
    }

    constructor (memory: array<nat>, pool: FunctionPool)
      ensures this.memory == memory && this.pool == pool
    {
      this.memory := memory;
      this.pool := pool;
      functions := map[];
      vectorOfAsts := 0;
      living := map[];
      freeMemoryCount := 0;
      marked := {};
    }

    /** Records a living object; true if it was there before. */
    method FoundLivingObject(a: nat, size: nat, ghost h: Heap, ghost layout: Layout) returns (already: bool)
      requires Tracing(h, layout) && a in layout && size == Recorded(h.mem, a, layout[a])
      modifies this`living, this`marked, this`freeMemoryCount
      ensures Tracing(h, layout)
      ensures already <==> Obj(a) in old(marked)
      ensures marked == old(marked) + {Obj(a)}
    {
      hide WellTyped, FunctionsAgree;
      if a in living { return true; }
      AgreesMore(h, layout, marked, living, pool.sweepFlags[..], freeMemoryCount, a);
      living := living[a := size];
      freeMemoryCount := freeMemoryCount - size;
      marked := marked + {Obj(a)};
      return false;
    }

    /** Marks a function; true if it was marked before. */
    method FoundFunction(w: nat, ghost h: Heap, ghost layout: Layout) returns (already: bool)
      requires Tracing(h, layout) && w in h.functions
      modifies this`marked, pool.sweepFlags
      ensures Tracing(h, layout)
      ensures already <==> Func(w) in old(marked)
      ensures marked == old(marked) + {Func(w)}
    {
      hide Has, WellTyped, FunctionsAgree;
      ghost var flags := pool.sweepFlags[..];
      already := pool.FoundFunction(functions[w].slot);
      FunctionsAgreeMore(h, layout, marked, flags, pool.sweepFlags[..], w);
      marked := marked + {Func(w)};
    }

    /** Marks what the words of one value of type t lead to. */
    method MarkTarget(words: seq<nat>, t: nat, ghost h: Heap, ghost layout: Layout)
      requires Tracing(h, layout) && TypeOk(h.mem, layout, t)
      requires |words| == |Components(h.mem, t)| && WordsOk(h, layout, Typed(words, Components(h.mem, t)))
      modifies this`living, this`marked, this`freeMemoryCount, pool.sweepFlags
      ensures Tracing(h, layout)
      ensures Explored(h, layout, old(marked), marked, Targets(h.mem, Typed(words, Components(h.mem, t))))
      decreases Items(h, layout) - marked, TargetRank(Ver(h.mem, t))
    {
      hide Explored, Successors, WellTyped, Agrees, WordOk;
      var tag := Ver(memory[..], t);
      if tag == CON_VEC {
        MarkWords(Typed(words, Components(memory[..], t)), h, layout);
      } else {
        ghost var all := Typed(words, Components(h.mem, t));
        ghost var word := TypedWord(words[0], t);
        assert all[0] == word && all == [word];
        assert WordOk(h, layout, word);
        OneTarget(h.mem, word);
        MarkWord(words[0], t, tag, h, layout);
      }
    }

    /** The cases of a value of one word. */
    method MarkWord(w: nat, t: nat, tag: nat, ghost h: Heap, ghost layout: Layout)
      requires Tracing(h, layout) && WordOk(h, layout, TypedWord(w, t)) && tag == Ver(h.mem, t)
      modifies this`living, this`marked, this`freeMemoryCount, pool.sweepFlags
      ensures Tracing(h, layout)
      ensures Explored(h, layout, old(marked), marked, Target(h.mem, TypedWord(w, t)))
      decreases Items(h, layout) - marked, if tag == DYNAMIC then 4 else 1
    {
      hide Explored, Successors, WellTyped, Agrees;
      if tag == FULL_POINTER {
        MarkPointer(w, Field(memory[..], t, 0), h, layout);
      } else if tag == VECTOR {
        MarkVector(w, Field(memory[..], t, 0), h, layout);
      } else if tag == DYNAMIC && w != 0 {
        MarkDynamic(w, h, layout);
      } else if tag == AST_POINTER && w != 0 {
        MarkAst(w, h, layout);
      } else if tag == TYPE_POINTER && w != 0 {
        MarkType(w, h, layout);
      } else if tag == FUNCTION_POINTER && w != 0 {
        MarkFunction(w, h, layout);
      } else {
        ExploredKnown(h, layout, marked, {});
      }
    }

    /** Marks every word of a range in turn. */
    method MarkWords(ws: seq<TypedWord>, ghost h: Heap, ghost layout: Layout)
      requires Tracing(h, layout) && WordsOk(h, layout, ws)
      modifies this`living, this`marked, this`freeMemoryCount, pool.sweepFlags
      ensures Tracing(h, layout)
      ensures Explored(h, layout, old(marked), marked, Targets(h.mem, ws))
      decreases Items(h, layout) - marked, 6
    {
      hide WellTyped, Agrees, WordOk, Successors;
      ghost var m0 := marked;
      ExploredKnown(h, layout, m0, {});
      for i := 0 to |ws|
        invariant Tracing(h, layout) && WordsOk(h, layout, ws)
        invariant Explored(h, layout, m0, marked, Targets(h.mem, ws[..i]))
      {
        ghost var m1 := marked;
        assert WordOk(h, layout, ws[i]);
        SimpleIsOne(h, layout, ws[i]);
        MarkTarget([ws[i].value], ws[i].ty, h, layout);
        ExploredJoin(h, layout, m0, m1, marked, Targets(h.mem, ws[..i]), Target(h.mem, ws[i]));
        assert ws[..i + 1] == ws[..i] + [ws[i]];
        TargetsAppend(h.mem, ws[..i], [ws[i]]);
        OneTarget(h.mem, ws[i]);
      }
      assert ws[..|ws|] == ws;
    }

    method MarkPointer(w: nat, t: nat, ghost h: Heap, ghost layout: Layout)
      requires Tracing(h, layout) && w in layout && layout[w] == Pointee(t)
      modifies this`living, this`marked, this`freeMemoryCount, pool.sweepFlags
      ensures Tracing(h, layout) && Explored(h, layout, old(marked), marked, {Obj(w)})
      decreases Items(h, layout) - marked, 0
    {
      hide Tracing, WellTyped, Agrees, Successors, WordsOk, ObjectOk, TypeOk, Explored, Targets, Components, Slice;
      hide ValueWords, VectorWords, Subtypes, Typed, Same, AstWords, Items;
      Facts(h, layout);
      ObjectFacts(h, layout, w);
      ghost var m0 := marked;
      var already := FoundLivingObject(w, 1, h, layout);
      if already {
        assert marked == m0;
        ExploredKnown(h, layout, m0, {Obj(w)});
      } else {
        ValueWordsTyped(h.mem, w, t);
        MarkTarget(Slice(memory[..], w, |Components(memory[..], t)|), t, h, layout);
        Recorded1(h, layout, m0, marked, w);
      }
    }

    method MarkVector(w: nat, elem: nat, ghost h: Heap, ghost layout: Layout)
      requires Tracing(h, layout) && w in layout && layout[w] == Vector(elem)
      modifies this`living, this`marked, this`freeMemoryCount, pool.sweepFlags
      ensures Tracing(h, layout) && Explored(h, layout, old(marked), marked, {Obj(w)})
      decreases Items(h, layout) - marked, 0
    {
      hide Tracing, WellTyped, Agrees, Successors, WordsOk, ObjectOk, TypeOk, Explored, Targets, Components, Slice;
      hide ValueWords, VectorWords, Subtypes, Typed, Same, AstWords, Items;
      Facts(h, layout);
      ObjectFacts(h, layout, w);
      ghost var m0 := marked;
      var already := FoundLivingObject(w, 2 + At(memory[..], w + 1), h, layout);
      if already {
        assert marked == m0;
        ExploredKnown(h, layout, m0, {Obj(w)});
      } else {
        MarkWords(Same(VectorWords(memory[..], w), elem), h, layout);
        Recorded1(h, layout, m0, marked, w);
      }
    }

    /** Of a dynamic object the type is marked first: its size is needed to record the object. */
    method MarkDynamic(w: nat, ghost h: Heap, ghost layout: Layout)
      requires Tracing(h, layout) && w in layout && layout[w] == Dynamic
      modifies this`living, this`marked, this`freeMemoryCount, pool.sweepFlags
      ensures Tracing(h, layout) && Explored(h, layout, old(marked), marked, {Obj(w)})
      decreases Items(h, layout) - marked, 3
    {
      hide Tracing, WellTyped, Agrees, Successors, Explored, WordOk, WordsOk, Target, Targets, Items, ValueWords,
        Components;
      Facts(h, layout);
      DynamicWords(h, layout, w);
      ghost var m0 := marked;
      var t := At(memory[..], w);
      MarkWord(t, TYPE_POINTER, TYPE_POINTER, h, layout);
      ExploredGrows(h, layout, m0, marked, Target(h.mem, TypedWord(t, TYPE_POINTER)));
      MarkDynamicValue(w, t, m0, h, layout);
    }

    method MarkDynamicValue(w: nat, t: nat, ghost m0: set<Item>, ghost h: Heap, ghost layout: Layout)
      requires Tracing(h, layout) && w in layout && layout[w] == Dynamic && t == At(h.mem, w)
      requires Explored(h, layout, m0, marked, Target(h.mem, TypedWord(t, TYPE_POINTER)))
      modifies this`living, this`marked, this`freeMemoryCount, pool.sweepFlags
      ensures Tracing(h, layout) && Explored(h, layout, m0, marked, {Obj(w)})
      decreases Items(h, layout) - marked, 2
    {
      hide *;
      Facts(h, layout);
      ghost var m1 := marked;
      ghost var first := Target(h.mem, TypedWord(t, TYPE_POINTER));
      var types := Components(memory[..], t);
      var words := Slice(memory[..], w + 1, |types|);
      DynamicFacts(h, layout, w, t, types, words);
      var already := FoundLivingObject(w, GetSize(memory[..], t) + 1, h, layout);
      if already {
        assert marked == m1;
        ExploredFound(h, layout, m0, m1, Obj(w), first);
      } else {
        MarkTarget(words, t, h, layout);
        ExploredItem(h, layout, m0, m1, marked, Obj(w), first, Targets(h.mem, Typed(words, types)));
      }
    }

    method MarkAst(w: nat, ghost h: Heap, ghost layout: Layout)
      requires Tracing(h, layout) && w in layout && layout[w] == Ast
      modifies this`living, this`marked, this`freeMemoryCount, pool.sweepFlags
      ensures Tracing(h, layout) && Explored(h, layout, old(marked), marked, {Obj(w)})
      decreases Items(h, layout) - marked, 0
    {
      hide Tracing, WellTyped, Agrees, Successors, WordsOk, ObjectOk, TypeOk, Explored, Targets, Components, Slice;
      hide ValueWords, VectorWords, Subtypes, Typed, Same, AstWords, Items;
      Facts(h, layout);
      ObjectFacts(h, layout, w);
      ghost var m0 := marked;
      var already := FoundLivingObject(w, AstSize(At(memory[..], w)) + 1, h, layout);
      if already {
        assert marked == m0;
        ExploredKnown(h, layout, m0, {Obj(w)});
      } else {
        MarkWords(AstWords(Heap(memory[..], functions, vectorOfAsts), w), h, layout);
        Recorded1(h, layout, m0, marked, w);
      }
    }

    /** A type without fields is its own tag and nothing to mark. */
    method MarkType(w: nat, ghost h: Heap, ghost layout: Layout)
      requires Tracing(h, layout) && WordOk(h, layout, TypedWord(w, TYPE_POINTER)) && w != 0
      modifies this`living, this`marked, this`freeMemoryCount, pool.sweepFlags
      ensures Tracing(h, layout) && Explored(h, layout, old(marked), marked, Target(h.mem, TypedWord(w, TYPE_POINTER)))
      decreases Items(h, layout) - marked, 0
    {
      hide *;
      Facts(h, layout);
      TypePointerTarget(h, layout, w);
      var tag := Ver(memory[..], w);
      ghost var m0 := marked;
      if HasFields(tag) {
        ObjectFacts(h, layout, w);
        var already := FoundLivingObject(w, if tag == CON_VEC then At(memory[..], w + 1) + 2 else 2, h, layout);
        if already {
          assert marked == m0;
          ExploredKnown(h, layout, m0, {Obj(w)});
        } else {
          MarkWords(Same(Subtypes(memory[..], w), TYPE_POINTER), h, layout);
          Recorded1(h, layout, m0, marked, w);
        }
      } else {
        ExploredKnown(h, layout, m0, {});
      }
    }

    method MarkFunction(w: nat, ghost h: Heap, ghost layout: Layout)
      requires Tracing(h, layout) && w in h.functions
      modifies this`living, this`marked, this`freeMemoryCount, pool.sweepFlags
      ensures Tracing(h, layout) && Explored(h, layout, old(marked), marked, {Func(w)})
      decreases Items(h, layout) - marked, 0
    {
      hide Tracing, WellTyped, Agrees, WordsOk, ObjectOk, TypeOk, Explored, Targets;
      Facts(h, layout);
      FunctionFacts(h, layout, w);
      ghost var m0 := marked;
      var already := FoundFunction(w, h, layout);
      if already {
        assert marked == m0;
        ExploredKnown(h, layout, m0, {Func(w)});
      } else {
        MarkWords(FunctionWords(functions[w]), h, layout);
        ExploredKnown(h, layout, m0, {});
        ExploredItem(h, layout, m0, m0, marked, Func(w), {}, Targets(h.mem, FunctionWords(h.functions[w])));
      }
    }

    /** The types and functions the collection starts from. */
    method InitializeRoots(typeRoots: seq<nat>, eventRoots: seq<nat>, ghost h: Heap, ghost layout: Layout)
      requires Tracing(h, layout) && RootsOk(h, layout, typeRoots, eventRoots)
      modifies this`living, this`marked, this`freeMemoryCount, pool.sweepFlags
      ensures Tracing(h, layout)
      ensures Explored(h, layout, old(marked), marked, Targets(h.mem, RootWords(typeRoots, eventRoots)))
    {
      hide WellTyped, Agrees, WordsOk, Explored;
      MarkWords(RootWords(typeRoots, eventRoots), h, layout);
    }

    /** Marking is exact: from nothing, the living objects and the function marks become
        exactly what the roots reach. */
    method TraceRoots(typeRoots: seq<nat>, eventRoots: seq<nat>, ghost h: Heap, ghost layout: Layout)
      requires Tracing(h, layout) && RootsOk(h, layout, typeRoots, eventRoots) && marked == {}
      modifies this`living, this`marked, this`freeMemoryCount, pool.sweepFlags
      ensures Tracing(h, layout)
      ensures forall a :: a in living <==> Reachable(h, layout, Roots(h, typeRoots, eventRoots), Obj(a))
      ensures forall w | w in h.functions ::
        Has(pool.sweepFlags[..], h.functions[w].slot) <==>
        Reachable(h, layout, Roots(h, typeRoots, eventRoots), Func(w))
    {
      InitializeRoots(typeRoots, eventRoots, h, layout);
      hide WellTyped, Reachable, Has, Explored;
      ExploredIsReachable(h, layout, marked, Roots(h, typeRoots, eventRoots));
    }
  }

  function TargetRank(tag: nat): nat {
    if tag == CON_VEC then 7 else 5
  }

  function RootWords(typeRoots: seq<nat>, eventRoots: seq<nat>): seq<TypedWord> {
    Same(typeRoots, TYPE_POINTER) + Same(eventRoots, FUNCTION_POINTER)
  }

  ghost predicate RootsOk(h: Heap, layout: Layout, typeRoots: seq<nat>, eventRoots: seq<nat>) {
    WordsOk(h, layout, RootWords(typeRoots, eventRoots))
  }

  function Roots(h: Heap, typeRoots: seq<nat>, eventRoots: seq<nat>): set<Item> {
    Targets(h.mem, RootWords(typeRoots, eventRoots))
  }

  lemma FunctionsAgreeMore(h: Heap, layout: Layout, marked: set<Item>, flags: seq<bv64>, flags': seq<bv64>, w: nat)
    requires WellTyped(h, layout) && FunctionsAgree(h, marked, flags) && w in h.functions
    requires forall s :: Has(flags', s) <==> s == h.functions[w].slot || Has(flags, s)
    ensures FunctionsAgree(h, marked + {Func(w)}, flags')
    ensures Has(flags, h.functions[w].slot) <==> Func(w) in marked
  {
    hide Has, ObjectOk, WordsOk;
  }

  lemma OneTarget(mem: seq<nat>, w: TypedWord)
    ensures Targets(mem, [w]) == Target(mem, w)
  {
  }

  lemma SimpleIsOne(h: Heap, layout: Layout, w: TypedWord)
    requires WordOk(h, layout, w)
    ensures TypeOk(h.mem, layout, w.ty) && Components(h.mem, w.ty) == [w.ty] && Ver(h.mem, w.ty) != CON_VEC
    ensures Typed([w.value], [w.ty]) == [w] && WordsOk(h, layout, [w])
    ensures Targets(h.mem, [w]) == Target(h.mem, w)
  {
  }

  lemma ObjectFacts(h: Heap, layout: Layout, a: nat)
    requires WellTyped(h, layout) && a in layout
    ensures var k := layout[a];
      && a + Extent(h.mem, a, k) <= |h.mem|
      && WordsOk(h, layout, ObjectWords(h, a, k))
      && (k.Pointee? ==> TypeOk(h.mem, layout, k.t) && a + |Components(h.mem, k.t)| <= |h.mem|)
      && (k.Dynamic? ==> TypeOk(h.mem, layout, At(h.mem, a)))
      && Obj(a) in Items(h, layout)
  {
    assert ObjectOk(h, layout, a, layout[a]);
    if layout[a].Pointee? { ComponentsSize(h, layout, layout[a].t); }
  }

  /** The words of a value in memory are its typed words. */
  lemma ValueWordsTyped(mem: seq<nat>, a: nat, t: nat)
    requires a + |Components(mem, t)| <= |mem|
    ensures |Slice(mem, a, |Components(mem, t)|)| == |Components(mem, t)|
    ensures Typed(Slice(mem, a, |Components(mem, t)|), Components(mem, t)) == ValueWords(mem, a, t)
  {
  }

  /** A type of stored values has as many components as words, and at least one. */
  lemma ComponentsSize(h: Heap, layout: Layout, t: nat)
    requires WellTyped(h, layout) && TypeOk(h.mem, layout, t)
    ensures |Components(h.mem, t)| == GetSize(h.mem, t) >= 1
  {
    hide ObjectWords, WordsOk, TypeFields, Extent;
    if Ver(h.mem, t) != CON_VEC {
      assert t in Components(h.mem, t);
      if t > NEVER_REACHED { assert ObjectOk(h, layout, t, layout[t]); }
    }
  }

  lemma ExtentPositive(h: Heap, layout: Layout, a: nat)
    requires WellTyped(h, layout) && a in layout
    ensures 1 <= Recorded(h.mem, a, layout[a]) <= Extent(h.mem, a, layout[a])
    ensures POOL_START <= a && a + Extent(h.mem, a, layout[a]) <= |h.mem|
  {
    hide ObjectWords, WordsOk, TypeFields, TypeOk;
    assert ObjectOk(h, layout, a, layout[a]);
    if layout[a].Pointee? { ComponentsSize(h, layout, layout[a].t); }
  }

  /** The first word of a dynamic object is its type, the others are its value. */
  lemma DynamicWords(h: Heap, layout: Layout, a: nat)
    requires WellTyped(h, layout) && a in layout && layout[a] == Dynamic
    ensures var t := At(h.mem, a); var first := TypedWord(t, TYPE_POINTER); var rest := ValueWords(h.mem, a + 1, t);
      && a + 1 + |Components(h.mem, t)| <= |h.mem|
      && WordOk(h, layout, first) && WordsOk(h, layout, rest)
      && Successors(h, layout, Obj(a)) == Target(h.mem, first) + Targets(h.mem, rest)
  {
    hide WellTyped, TypeOk, WordOk, Target, Components, Items;
    ObjectFacts(h, layout, a);
    DynamicSize(h.mem, a);
    var t := At(h.mem, a);
    ComponentsSize(h, layout, t);
    var first, rest := TypedWord(t, TYPE_POINTER), ValueWords(h.mem, a + 1, t);
    var ws := ObjectWords(h, a, Dynamic);
    assert ws == [first] + rest;
    assert ws[0] == first;
    assert forall i | 0 <= i < |rest| :: rest[i] == ws[i + 1];
    TargetsAppend(h.mem, [first], rest);
    OneTarget(h.mem, first);
  }

  /** What a type pointer that is not null leads to. */
  lemma TypePointerTarget(h: Heap, layout: Layout, w: nat)
    requires WordOk(h, layout, TypedWord(w, TYPE_POINTER)) && w != 0
    ensures var tag := Ver(h.mem, w);
      if HasFields(tag) then
        && w in layout && layout[w] == Type && Target(h.mem, TypedWord(w, TYPE_POINTER)) == {Obj(w)}
        && Recorded(h.mem, w, Type) == (if tag == CON_VEC then At(h.mem, w + 1) + 2 else 2)
        && ObjectWords(h, w, Type) == Same(Subtypes(h.mem, w), TYPE_POINTER)
      else Target(h.mem, TypedWord(w, TYPE_POINTER)) == {}
  {
    hide Subtypes, Components;
  }

  lemma DynamicSize(mem: seq<nat>, a: nat)
    ensures Recorded(mem, a, Dynamic) == GetSize(mem, At(mem, a)) + 1
  {
  }

  lemma FunctionFacts(h: Heap, layout: Layout, w: nat)
    requires WellTyped(h, layout) && w in h.functions
    ensures WordsOk(h, layout, FunctionWords(h.functions[w])) && Func(w) in Items(h, layout)
    ensures Successors(h, layout, Func(w)) == Targets(h.mem, FunctionWords(h.functions[w]))
  {
  }

  /** What is needed to mark a dynamic object's value. */
  lemma DynamicFacts(h: Heap, layout: Layout, a: nat, t: nat, types: seq<nat>, words: seq<nat>)
    requires WellTyped(h, layout) && a in layout && layout[a] == Dynamic
    requires t == At(h.mem, a) && types == Components(h.mem, t) && words == Slice(h.mem, a + 1, |types|)
    ensures Recorded(h.mem, a, Dynamic) == GetSize(h.mem, t) + 1
    ensures Obj(a) in Items(h, layout) && TypeOk(h.mem, layout, t)
    ensures |words| == |types| && WordsOk(h, layout, Typed(words, types))
    ensures Successors(h, layout, Obj(a)) == Target(h.mem, TypedWord(t, TYPE_POINTER))
      + Targets(h.mem, Typed(words, types))
  {
    hide *;
    DynamicSize(h.mem, a);
    assert Obj(a) in Items(h, layout) && TypeOk(h.mem, layout, t) by { ObjectFacts(h, layout, a); }
    var rest := ValueWords(h.mem, a + 1, t);
    assert a + 1 + |types| <= |h.mem| && WordsOk(h, layout, rest) by { DynamicWords(h, layout, a); }
    assert |words| == |types| && Typed(words, types) == rest by { ValueWordsTyped(h.mem, a + 1, t); }
    assert Successors(h, layout, Obj(a)) == Target(h.mem, TypedWord(t, TYPE_POINTER)) + Targets(h.mem, rest) by {
      DynamicWords(h, layout, a);
    }
  }

  /** An object that was recorded first and then looked through. */
  lemma Recorded1(h: Heap, layout: Layout, m0: set<Item>, m1: set<Item>, a: nat)
    requires a in layout && Explored(h, layout, m0 + {Obj(a)}, m1, Targets(h.mem, ObjectWords(h, a, layout[a])))
    ensures Explored(h, layout, m0, m1, {Obj(a)})
  {
    hide Explored;
    ExploredKnown(h, layout, m0, {});
    ExploredItem(h, layout, m0, m0, m1, Obj(a), {}, Successors(h, layout, Obj(a)));
  }
}
