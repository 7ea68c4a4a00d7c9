/**
 A heap that a collection damages: a pointer that the roots reach has a target of two words,
 and the second one is free afterwards.
 */
module LostWords {
  import opened FunctionPool
  import opened FreeList
  import opened Heap
  import opened Tags
  import opened Marking
  import opened Collecting
  import opened HeapRuns

  /** The type of vectors of ASTs, the con_vec of two integers, a pointer type to that, two
      integers, a dynamic object that is a pointer to them, and an imv of this object. */
  const LOSING: seq<nat> := [
    VECTOR, AST_POINTER,
    CON_VEC, 2, INTEGER, INTEGER,
    FULL_POINTER, POOL_START + 2,
    41, 42,
    POOL_START + 6, POOL_START + 8,
    IMV, POOL_START + 10]

  function LosingLayout(): Layout {
    map[POOL_START := Type, POOL_START + 2 := Type, POOL_START + 6 := Type,
        POOL_START + 8 := Pointee(POOL_START + 2), POOL_START + 10 := Dynamic, POOL_START + 12 := Ast]
  }

  /** Nothing but one function is an event root, and its AST is the imv. */
  function Losing(low: seq<nat>, spare: seq<nat>): State {
    State(Heap(low + LOSING + spare, map[1 := Function(Slot(0, 0), POOL_START + 12, INTEGER)], POOL_START),
      [POOL_START], [1], [], 0, [1], {})
  }

  /** Each word by itself. */
  ghost predicate LosingMemory(m: seq<nat>) {
    && |m| >= 30
    && m[16] == VECTOR && m[17] == AST_POINTER
    && m[18] == CON_VEC && m[19] == 2 && m[20] == INTEGER && m[21] == INTEGER
    && m[22] == FULL_POINTER && m[23] == 18
    && m[24] == 41 && m[25] == 42
    && m[26] == 22 && m[27] == 24
    && m[28] == IMV && m[29] == 26
  }

  lemma LosingWords(low: seq<nat>, spare: seq<nat>)
    requires |low| == POOL_START
    ensures LosingMemory(Losing(low, spare).h.mem)
  {
    var mem := Losing(low, spare).h.mem;
    forall i | 0 <= i < |LOSING| ensures mem[POOL_START + i] == LOSING[i] {}
    assert mem[16 + 0] == LOSING[0] && mem[16 + 1] == LOSING[1] && mem[16 + 2] == LOSING[2] && mem[16 + 3] == LOSING[3];
    assert mem[16 + 4] == LOSING[4] && mem[16 + 5] == LOSING[5] && mem[16 + 6] == LOSING[6] && mem[16 + 7] == LOSING[7];
    assert mem[16 + 8] == LOSING[8] && mem[16 + 9] == LOSING[9] && mem[16 + 10] == LOSING[10]
      && mem[16 + 11] == LOSING[11];
    assert mem[16 + 12] == LOSING[12] && mem[16 + 13] == LOSING[13];
  }

  lemma LosingTypes(h: Heap)
    requires LosingMemory(h.mem)
    ensures ObjectOk(h, LosingLayout(), 16, Type) && ObjectOk(h, LosingLayout(), 18, Type)
    ensures ObjectOk(h, LosingLayout(), 22, Type)
    ensures Components(h.mem, 18) == [INTEGER, INTEGER] && TypeOk(h.mem, LosingLayout(), 18)
  {
    assert Components(h.mem, 18) == [INTEGER, INTEGER];
  }

  lemma LosingTarget(h: Heap)
    requires LosingMemory(h.mem)
    ensures ObjectOk(h, LosingLayout(), 24, Pointee(18))
  {
    LosingTypes(h);
    hide TypeOk;
    assert ObjectWords(h, 24, Pointee(18)) == [TypedWord(41, INTEGER), TypedWord(42, INTEGER)];
  }

  lemma LosingDynamic(h: Heap)
    requires LosingMemory(h.mem)
    ensures ObjectOk(h, LosingLayout(), 26, Dynamic)
    ensures Obj(24) in Successors(h, LosingLayout(), Obj(26))
  {
    assert Components(h.mem, 22) == [22];
    var ws := [TypedWord(22, TYPE_POINTER), TypedWord(24, 22)];
    assert ObjectWords(h, 26, Dynamic) == ws;
    assert Obj(24) in Target(h.mem, ws[1]);
    TargetsIn(h.mem, ws, Obj(24));
  }

  lemma LosingAst(h: Heap)
    requires LosingMemory(h.mem)
    ensures ObjectOk(h, LosingLayout(), 28, Ast)
    ensures Obj(26) in Successors(h, LosingLayout(), Obj(28))
  {
    assert ObjectWords(h, 28, Ast) == [TypedWord(26, DYNAMIC)];
  }

  lemma LosingIsWellTyped(h: Heap)
    requires LosingMemory(h.mem) && h.vectorOfAsts == 16 && h.functions == map[1 := Function(Slot(0, 0), 28, INTEGER)]
    ensures WellTyped(h, LosingLayout())
  {
    hide ObjectOk, WordsOk, FunctionWords, SimpleType, Extent, LosingMemory, LosingLayout;
    LosingObjects();
    LosingApart(h);
    LosingTypes(h);
    LosingTarget(h);
    LosingDynamic(h);
    LosingAst(h);
    LosingRest(h);
  }

  lemma LosingObjects()
    ensures forall a | a in LosingLayout() :: a in {16, 18, 22, 24, 26, 28}
    ensures var l := LosingLayout();
      && 16 in l && 18 in l && 22 in l && 24 in l && 26 in l && 28 in l
      && l[16] == l[18] == l[22] == Type && l[24] == Pointee(18) && l[26] == Dynamic && l[28] == Ast
  {
  }

  lemma LosingApart(h: Heap)
    requires LosingMemory(h.mem)
    ensures forall a, b | a in LosingLayout() && b in LosingLayout() && a < b ::
      a + Extent(h.mem, a, LosingLayout()[a]) <= b
  {
    hide Extent, LosingMemory, LosingLayout;
    LosingObjects();
    LosingRest(h);
  }

  lemma LosingRest(h: Heap)
    requires LosingMemory(h.mem)
    ensures WordsOk(h, LosingLayout(), FunctionWords(Function(Slot(0, 0), 28, INTEGER)))
    ensures SimpleType(h.mem, LosingLayout(), 16) && Ver(h.mem, 16) == VECTOR && Field(h.mem, 16, 0) == AST_POINTER
    ensures Extent(h.mem, 16, Type) == 2 && Extent(h.mem, 18, Type) == 4 && Extent(h.mem, 22, Type) == 2
    ensures Extent(h.mem, 24, Pointee(18)) == 2 && Extent(h.mem, 26, Dynamic) == 2 && Extent(h.mem, 28, Ast) == 2
  {
  }

  lemma LosingRoots(h: Heap)
    requires LosingMemory(h.mem) && h.functions == map[1 := Function(Slot(0, 0), 28, INTEGER)]
    ensures RootsOk(h, LosingLayout(), [16], [1]) && Func(1) in Roots(h, [16], [1])
    ensures Obj(28) in Successors(h, LosingLayout(), Func(1))
  {
    var ws := RootWords([16], [1]);
    assert ws == [TypedWord(16, TYPE_POINTER), TypedWord(1, FUNCTION_POINTER)];
    assert Func(1) in Target(h.mem, ws[1]);
    TargetsIn(h.mem, ws, Func(1));
    TargetsIn(h.mem, FunctionWords(h.functions[1]), Obj(28)) by {
      assert Obj(28) in Target(h.mem, FunctionWords(h.functions[1])[0]);
    }
  }

  lemma LosingReaches(h: Heap)
    requires LosingMemory(h.mem) && h.functions == map[1 := Function(Slot(0, 0), 28, INTEGER)]
    ensures Reachable(h, LosingLayout(), Roots(h, [16], [1]), Obj(24))
  {
    var layout, roots := LosingLayout(), Roots(h, [16], [1]);
    LosingRoots(h);
    LosingDynamic(h);
    LosingAst(h);
    hide *;
    ReachRoot(h, layout, roots, Func(1));
    ReachStep(h, layout, roots, Func(1), Obj(28));
    ReachStep(h, layout, roots, Obj(28), Obj(26));
    ReachStep(h, layout, roots, Obj(26), Obj(24));
  }

  /** A collection of this heap frees the second of the two integers. */
  lemma LosesAWord(low: seq<nat>, spare: seq<nat>)
    requires |low| == POOL_START
    ensures var s, layout := Losing(low, spare), LosingLayout();
      && Traceable(s, layout) && Reachable(s.h, layout, RootSet(s), Obj(24)) && !OneWordTargets(s, layout)
      && forall s': State, kept, debug | Collected(s, s', layout, kept, debug) :: exists b ::
           b in s'.free && Inside(25, b)
  {
    hide WellTyped, Reachable, Successors, ObjectOk, RootsOk, Roots, Collected;
    var s, layout := Losing(low, spare), LosingLayout();
    LosingWords(low, spare);
    LosingIsWellTyped(s.h);
    LosingRoots(s.h);
    LosingReaches(s.h);
    LosingRest(s.h);
    assert Has([1], Slot(0, 0));
    forall s': State, kept, debug | Collected(s, s', layout, kept, debug)
      ensures exists b :: b in s'.free && Inside(25, b)
    {
      var b := SecondWordFreed(s, s', layout, kept, debug, 24);
    }
  }
}
