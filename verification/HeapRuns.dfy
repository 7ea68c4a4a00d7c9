/**
 Whole runs of the heap: any interleaving of allocations, of type-safe changes by the
 program, and of collections. A collection changes no word that the roots reach and leaves
 a well typed heap; an allocation never hands out such a word.
 */
module HeapRuns {
  import opened Options
  import opened FunctionPool
  import opened FreeList
  import opened Heap
  import opened Tags
  import opened Marking
  import opened Sweeping
  import opened Collecting
  import opened Retention

  // ---------------------------------------------------------------- pointer targets of several words

  /** Every pointer target that the roots reach is one word. The collector records one word for
      the target of a pointer, whatever its size. */
  ghost predicate OneWordTargets(s: State, layout: Layout) {
    forall a | a in layout && layout[a].Pointee? && Reachable(s.h, layout, RootSet(s), Obj(a)) ::
      GetSize(s.h.mem, layout[a].t) == 1
  }

  /** No word of what the roots reach is in a free block. */
  ghost predicate Retained(s: State, s': State, layout: Layout) {
    forall a, x: nat, b | a in layout && Reachable(s.h, layout, RootSet(s), Obj(a)) && b in s'.free &&
        a <= x < a + Extent(s.h.mem, a, layout[a]) :: !Inside(x, b)
  }

  lemma RecordedIsExtent(mem: seq<nat>, a: nat, k: Kind)
    requires k.Pointee? ==> GetSize(mem, k.t) == 1
    ensures Recorded(mem, a, k) == Extent(mem, a, k)
  {
  }

  lemma LongTarget(s: State, layout: Layout, kept: map<nat, nat>, a: nat)
    requires Keeps(s, layout, kept) && a in kept
    requires layout[a].Pointee? && GetSize(s.h.mem, layout[a].t) > 1
    ensures Extent(s.h.mem, a, layout[a]) > 1 && kept[a] == 1
  {
    hide Reachable, GetSize;
  }

  lemma SecondWord(s: State, layout: Layout, kept: map<nat, nat>, a: nat)
    requires WellTyped(s.h, layout) && Keeps(s, layout, kept) && a in kept
    requires layout[a].Pointee? && GetSize(s.h.mem, layout[a].t) > 1
    ensures !Occupied(kept, a + 1) && a + 1 < |s.h.mem| && POOL_START <= a
  {
    hide Reachable, ObjectOk, WordsOk, SimpleType, Extent;
    assert Extent(s.h.mem, a, layout[a]) > 1 && kept[a] == 1 by { LongTarget(s, layout, kept, a); }
    ExtentPositive(s.h, layout, a);
    forall c | c in kept ensures !(c <= a + 1 < c + kept[c]) {
      ExtentPositive(s.h, layout, c);
    }
  }

  /** A collection keeps every word of what the roots reach exactly when every pointer they
      reach has a target of one word: the others lose all words but the first. */
  lemma RetainedIffOneWord(s: State, s': State, layout: Layout, kept: map<nat, nat>, debug: bool)
    requires Traceable(s, layout) && Collected(s, s', layout, kept, debug)
    ensures Retained(s, s', layout) <==> OneWordTargets(s, layout)
  {
    hide WellTyped, Reachable, FunctionsCollected, PoolOk, RootsOk, Has;
    if OneWordTargets(s, layout) {
      forall a, x: nat, b | a in kept && a in layout && a <= x < a + Extent(s.h.mem, a, layout[a]) && b in s'.free
        ensures !Inside(x, b)
      {
        RecordedIsExtent(s.h.mem, a, layout[a]);
        assert Occupied(kept, x);
        assert Gap(kept, POOL_START, |s.h.mem|, b);
      }
    }
    forall a | Retained(s, s', layout) && a in kept && layout[a].Pointee?
      ensures GetSize(s.h.mem, layout[a].t) == 1
    {
      ExtentPositive(s.h, layout, a);
      if GetSize(s.h.mem, layout[a].t) > 1 { var b := SecondWordFreed(s, s', layout, kept, debug, a); }
    }
  }

  /** The second word of a longer target is in a free block after the collection. */
  lemma SecondWordFreed(s: State, s': State, layout: Layout, kept: map<nat, nat>, debug: bool, a: nat)
      returns (b: Region)
    requires Traceable(s, layout) && Collected(s, s', layout, kept, debug) && a in layout
    requires Reachable(s.h, layout, RootSet(s), Obj(a)) && layout[a].Pointee? && GetSize(s.h.mem, layout[a].t) > 1
    ensures b in s'.free && Inside(a + 1, b) && a + 1 < a + Extent(s.h.mem, a, layout[a])
  {
    hide WellTyped, Reachable, FunctionsCollected, PoolOk, RootsOk, Has, LivingOk, GetSize;
    SecondWord(s, layout, kept, a);
    b := FreeWord(kept, s'.free, POOL_START, |s.h.mem|, a + 1) by { SweptTiles(s, s', layout, kept, debug); }
  }

  lemma SweptTiles(s: State, s': State, layout: Layout, kept: map<nat, nat>, debug: bool)
    requires Collected(s, s', layout, kept, debug)
    ensures Tiles(Elements(s'.free) + Blocks(kept), POOL_START, |s.h.mem|)
  {
  }

  // ---------------------------------------------------------------- types of reachable words are reachable

  ghost predicate Known(h: Heap, layout: Layout, roots: set<Item>, t: nat) {
    t > NEVER_REACHED ==> Reachable(h, layout, roots, Obj(t))
  }

  /** The type that an object's kind depends on can be reached too. */
  ghost predicate KindKnown(h: Heap, layout: Layout, roots: set<Item>, i: Item) {
    i.Obj? && i.addr in layout ==>
      match layout[i.addr]
      case Pointee(t) => Known(h, layout, roots, t)
      case Vector(elem) => Known(h, layout, roots, elem)
      case _ => true
  }

  ghost predicate TypesKnown(h: Heap, layout: Layout, roots: set<Item>, ws: seq<TypedWord>) {
    forall k | 0 <= k < |ws| :: Known(h, layout, roots, ws[k].ty)
  }

  lemma ReachStep(h: Heap, layout: Layout, roots: set<Item>, x: Item, i: Item)
    requires Reachable(h, layout, roots, x) && i in Successors(h, layout, x)
    ensures Reachable(h, layout, roots, i)
  {
    hide Successors;
    var p :| Leads(h, layout, p, roots, x);
    assert Leads(h, layout, p + [i], roots, i);
  }

  lemma TypeIsPlaced(h: Heap, layout: Layout, c: nat)
    requires WellTyped(h, layout) && c in layout && layout[c] == Type
    ensures c > NEVER_REACHED && HasFields(Ver(h.mem, c))
  {
    hide WordsOk, TypeOk, TypeFields, ObjectWords;
    assert ObjectOk(h, layout, c, Type);
  }

  /** The fields of a reachable type are reachable. */
  lemma SubtypeKnown(h: Heap, layout: Layout, roots: set<Item>, t: nat, c: nat)
    requires WellTyped(h, layout) && t in layout && layout[t] == Type && Reachable(h, layout, roots, Obj(t))
    requires c in Subtypes(h.mem, t) && c in layout && layout[c] == Type
    ensures Reachable(h, layout, roots, Obj(c))
  {
    hide Reachable, WellTyped, Targets;
    TypeIsPlaced(h, layout, c);
    var types := Subtypes(h.mem, t);
    var ws := Same(types, TYPE_POINTER);
    var k :| 0 <= k < |types| && types[k] == c;
    assert ws[k] == TypedWord(c, TYPE_POINTER);
    assert Obj(c) in Target(h.mem, ws[k]);
    TargetsIn(h.mem, ws, Obj(c));
    ReachStep(h, layout, roots, Obj(t), Obj(c));
  }

  lemma ComponentsKnown(h: Heap, layout: Layout, roots: set<Item>, t: nat)
    requires WellTyped(h, layout) && TypeOk(h.mem, layout, t) && Known(h, layout, roots, t)
    requires (t > NEVER_REACHED ==> t in layout && layout[t] == Type)
    ensures forall c | c in Components(h.mem, t) :: Known(h, layout, roots, c)
  {
    hide Reachable, WellTyped;
    if Ver(h.mem, t) == CON_VEC {
      forall c | c in Components(h.mem, t) ensures Known(h, layout, roots, c) {
        assert SimpleType(h.mem, layout, c);
        if c > NEVER_REACHED { SubtypeKnown(h, layout, roots, t, c); }
      }
    }
  }

  /** The types of the words of a reachable item can be reached. */
  lemma WordTypesKnown(h: Heap, layout: Layout, roots: set<Item>, i: Item)
    requires WellTyped(h, layout) && Reachable(h, layout, roots, i) && KindKnown(h, layout, roots, i)
    requires i in Items(h, layout) && Known(h, layout, roots, h.vectorOfAsts)
    ensures TypesKnown(h, layout, roots, ItemWords(h, layout, i))
  {
    hide WellTyped, Reachable, TypeOk, WordsOk, Components, Subtypes, Slice;
    if i.Obj? {
      ObjectFacts(h, layout, i.addr);
      match layout[i.addr] {
        case Pointee(t) => ComponentsKnownTyped(h, layout, roots, i.addr, t);
        case Dynamic =>
          var t := At(h.mem, i.addr);
          DynamicTypeKnown(h, layout, roots, i.addr);
          ComponentsKnownTyped(h, layout, roots, i.addr + 1, t);
        case _ =>
      }
    }
  }

  lemma ComponentsKnownTyped(h: Heap, layout: Layout, roots: set<Item>, a: nat, t: nat)
    requires WellTyped(h, layout) && TypeOk(h.mem, layout, t) && Known(h, layout, roots, t)
    ensures TypesKnown(h, layout, roots, ValueWords(h.mem, a, t))
  {
    hide WellTyped, Reachable, Known;
    ComponentsKnown(h, layout, roots, t) by { assert TypeOk(h.mem, layout, t); }
    hide TypeOk, Components;
  }

  lemma DynamicTypeKnown(h: Heap, layout: Layout, roots: set<Item>, a: nat)
    requires WellTyped(h, layout) && a in layout && layout[a] == Dynamic && Reachable(h, layout, roots, Obj(a))
    ensures Known(h, layout, roots, At(h.mem, a))
  {
    var t := At(h.mem, a);
    if t > NEVER_REACHED {
      DynamicWords(h, layout, a);
      ObjectFacts(h, layout, a);
      hide Reachable, WordsOk, Successors, Targets;
      assert t in layout && layout[t] == Type;
      assert ObjectOk(h, layout, t, Type);
      assert Obj(t) in Target(h.mem, TypedWord(t, TYPE_POINTER));
      ReachStep(h, layout, roots, Obj(a), Obj(t));
    }
  }

  /** What a word of a reachable type points to is of a kind whose type can be reached. */
  lemma TargetKindKnown(h: Heap, layout: Layout, roots: set<Item>, w: TypedWord, i: Item)
    requires WellTyped(h, layout) && WordOk(h, layout, w) && Known(h, layout, roots, w.ty) && i in Target(h.mem, w)
    ensures KindKnown(h, layout, roots, i) && i in Items(h, layout)
  {
    hide Reachable;
    var tag := Ver(h.mem, w.ty);
    if tag == FULL_POINTER || tag == VECTOR {
      var t, c := w.ty, Field(h.mem, w.ty, 0);
      assert ObjectOk(h, layout, t, Type);
      hide WellTyped, WordsOk;
      assert c in Subtypes(h.mem, t);
      if c > NEVER_REACHED { SubtypeKnown(h, layout, roots, t, c); }
    }
  }

  lemma {:induction false} PathKnown(h: Heap, layout: Layout, roots: set<Item>, p: seq<Item>, ws: seq<TypedWord>,
      k: nat)
    requires WellTyped(h, layout) && Path(h, layout, p) && k < |p| && p[0] in roots
    requires roots == Targets(h.mem, ws) && WordsOk(h, layout, ws) && TypesKnown(h, layout, roots, ws)
    requires Known(h, layout, roots, h.vectorOfAsts)
    ensures Reachable(h, layout, roots, p[k]) && KindKnown(h, layout, roots, p[k]) && p[k] in Items(h, layout)
  {
    hide Reachable, WellTyped, Known, KindKnown, Items, ItemWords;
    if k == 0 {
      ReachRoot(h, layout, roots, p[0]);
      TargetOfKnown(h, layout, roots, ws, p[0]);
    } else {
      PathKnown(h, layout, roots, p, ws, k - 1);
      var x := p[k - 1];
      assert p[k - 1 + 1] in Successors(h, layout, x);
      ReachStep(h, layout, roots, x, p[k]);
      WordTypesKnown(h, layout, roots, x);
      ItemWordsOk(h, layout, x);
      TargetOfKnown(h, layout, roots, ItemWords(h, layout, x), p[k]);
    }
  }

  lemma ItemWordsOk(h: Heap, layout: Layout, i: Item)
    requires WellTyped(h, layout)
    ensures WordsOk(h, layout, ItemWords(h, layout, i))
  {
    hide WordOk, ObjectWords;
    if i.Obj? && i.addr in layout { ObjectFacts(h, layout, i.addr); }
  }

  lemma TargetOfKnown(h: Heap, layout: Layout, roots: set<Item>, ws: seq<TypedWord>, i: Item)
    requires WellTyped(h, layout) && WordsOk(h, layout, ws) && TypesKnown(h, layout, roots, ws)
    requires i in Targets(h.mem, ws)
    ensures KindKnown(h, layout, roots, i) && i in Items(h, layout)
  {
    hide WellTyped, WordOk, Known, KindKnown, Target, Items;
    TargetsIn(h.mem, ws, i);
    var k :| 0 <= k < |ws| && i in Target(h.mem, ws[k]);
    TargetKindKnown(h, layout, roots, ws[k], i);
  }

  // ---------------------------------------------------------------- one collection

  /** The type of block vectors is the first root, as the collector reads it back from there. */
  ghost predicate Rooted(s: State) {
    |s.typeRoots| > 0 && s.h.vectorOfAsts == s.typeRoots[0]
  }

  ghost predicate Sound(s: State, layout: Layout) {
    && Traceable(s, layout) && Rooted(s)
    && (forall a | a in layout :: Region(a, Extent(s.h.mem, a, layout[a])) in s.owned)
  }

  function KeptLayout(layout: Layout, kept: map<nat, nat>): Layout {
    map a | a in layout && a in kept :: layout[a]
  }

  lemma FirstRoot(s: State, layout: Layout)
    requires WellTyped(s.h, layout) && Rooted(s)
    ensures var ws := RootWords(s.typeRoots, s.eventRoots); |ws| > 0 && Obj(s.h.vectorOfAsts) in Target(s.h.mem, ws[0])
    ensures forall w | w in RootWords(s.typeRoots, s.eventRoots) :: w.ty <= NEVER_REACHED
  {
    hide ObjectOk, WordsOk;
    assert RootWords(s.typeRoots, s.eventRoots)[0] == TypedWord(s.h.vectorOfAsts, TYPE_POINTER);
  }

  lemma RootsKnown(s: State, layout: Layout)
    requires Traceable(s, layout) && Rooted(s)
    ensures TypesKnown(s.h, layout, RootSet(s), RootWords(s.typeRoots, s.eventRoots))
    ensures Known(s.h, layout, RootSet(s), s.h.vectorOfAsts)
  {
    hide WellTyped, RootsOk, Reachable, Targets, Has;
    var ws, i := RootWords(s.typeRoots, s.eventRoots), Obj(s.h.vectorOfAsts);
    FirstRoot(s, layout);
    TargetsIn(s.h.mem, ws, i);
    ReachRoot(s.h, layout, RootSet(s), i);
  }

  lemma ReachableKnown(s: State, layout: Layout, i: Item)
    requires Traceable(s, layout) && Rooted(s) && Reachable(s.h, layout, RootSet(s), i)
    ensures KindKnown(s.h, layout, RootSet(s), i) && i in Items(s.h, layout)
    ensures TypesKnown(s.h, layout, RootSet(s), ItemWords(s.h, layout, i))
  {
    hide WellTyped, TypesKnown, Known, KindKnown, Items, WordsOk;
    var roots := RootSet(s);
    RootsKnown(s, layout);
    var p :| Leads(s.h, layout, p, roots, i);
    PathKnown(s.h, layout, roots, p, RootWords(s.typeRoots, s.eventRoots), |p| - 1);
    WordTypesKnown(s.h, layout, roots, i);
  }

  /** What is reached is among the kept objects and functions. */
  lemma ReachableStays(s: State, s': State, layout: Layout, kept: map<nat, nat>, debug: bool, i: Item)
    requires Traceable(s, layout) && Rooted(s) && Collected(s, s', layout, kept, debug)
    ensures Reachable(s.h, layout, RootSet(s), i) <==> i in Items(s'.h, KeptLayout(layout, kept))
  {
    hide WellTyped, RootsOk, Reachable, MemoryCollected, LivingOk, Has;
    if Reachable(s.h, layout, RootSet(s), i) { ReachableKnown(s, layout, i); }
  }

  lemma KnownStays(s: State, s': State, layout: Layout, kept: map<nat, nat>, debug: bool, t: nat)
    requires Traceable(s, layout) && Rooted(s) && Collected(s, s', layout, kept, debug)
    requires Known(s.h, layout, RootSet(s), t)
    ensures Stays(KeptLayout(layout, kept), t)
  {
    hide Traceable, Rooted, Collected, Reachable;
    if t > NEVER_REACHED { ReachableStays(s, s', layout, kept, debug, Obj(t)); }
  }

  lemma ReachableWordsStay(s: State, s': State, layout: Layout, kept: map<nat, nat>, debug: bool, ws: seq<TypedWord>)
    requires Traceable(s, layout) && Rooted(s) && Collected(s, s', layout, kept, debug)
    requires TypesKnown(s.h, layout, RootSet(s), ws)
    requires forall j | j in Targets(s.h.mem, ws) :: Reachable(s.h, layout, RootSet(s), j)
    ensures WordsStay(s.h, s'.h, KeptLayout(layout, kept), ws)
  {
    hide Traceable, Rooted, Collected, Reachable, Known, Target, Stays, Items;
    var layout' := KeptLayout(layout, kept);
    forall k | 0 <= k < |ws| ensures WordStays(s.h, s'.h, layout', ws[k]) {
      KnownStays(s, s', layout, kept, debug, ws[k].ty);
      forall i | i in Target(s.h.mem, ws[k]) ensures i in Items(s'.h, layout') {
        TargetsIn(s.h.mem, ws, i);
        ReachableStays(s, s', layout, kept, debug, i);
      }
    }
  }

  lemma ItemStays(s: State, s': State, layout: Layout, kept: map<nat, nat>, debug: bool, i: Item)
    requires Traceable(s, layout) && Rooted(s) && Collected(s, s', layout, kept, debug)
    requires i in Items(s'.h, KeptLayout(layout, kept))
    ensures WordsStay(s.h, s'.h, KeptLayout(layout, kept), ItemWords(s.h, layout, i))
    ensures KindKnown(s.h, layout, RootSet(s), i)
  {
    hide Traceable, Rooted, Collected, Reachable, Known, Items, TypesKnown;
    ReachableStays(s, s', layout, kept, debug, i);
    ReachableKnown(s, layout, i);
    forall j | j in Targets(s.h.mem, ItemWords(s.h, layout, i)) ensures Reachable(s.h, layout, RootSet(s), j) {
      assert j in Successors(s.h, layout, i);
      ReachStep(s.h, layout, RootSet(s), i, j);
    }
    ReachableWordsStay(s, s', layout, kept, debug, ItemWords(s.h, layout, i));
  }

  lemma KeptWordsSame(s: State, s': State, layout: Layout, kept: map<nat, nat>, debug: bool, a: nat)
    requires Collected(s, s', layout, kept, debug) && a in kept && a in layout
    requires layout[a].Pointee? ==> GetSize(s.h.mem, layout[a].t) == 1
    ensures kept[a] == Extent(s.h.mem, a, layout[a]) && SameFrom(s.h.mem, s'.h.mem, a, kept[a])
  {
    hide Reachable, SweepDone, FunctionsCollected, LivingOk, Extent, Recorded;
    RecordedIsExtent(s.h.mem, a, layout[a]);
    forall x | a <= x < a + kept[a] && x < |s.h.mem| ensures s'.h.mem[x] == s.h.mem[x] {
      assert Occupied(kept, x);
    }
  }

  lemma KeptIsReached(s: State, s': State, layout: Layout, kept: map<nat, nat>, debug: bool, a: nat)
    requires OneWordTargets(s, layout) && Collected(s, s', layout, kept, debug) && a in KeptLayout(layout, kept)
    ensures layout[a].Pointee? ==> GetSize(s.h.mem, layout[a].t) == 1
  {
    hide Reachable, SweepDone, FunctionsCollected, LivingOk;
  }

  lemma KeptStays(s: State, s': State, layout: Layout, kept: map<nat, nat>, debug: bool, a: nat)
    requires Sound(s, layout) && OneWordTargets(s, layout) && Collected(s, s', layout, kept, debug)
    requires a in KeptLayout(layout, kept)
    ensures SameFrom(s.h.mem, s'.h.mem, a, Extent(s.h.mem, a, layout[a]))
    ensures KindStays(KeptLayout(layout, kept), layout[a])
  {
    hide Traceable, Rooted, Collected, Reachable, Extent, SameFrom, Stays, OneWordTargets;
    KeptIsReached(s, s', layout, kept, debug, a);
    KeptWordsSame(s, s', layout, kept, debug, a);
    assert Obj(a) in Items(s'.h, KeptLayout(layout, kept));
    ItemStays(s, s', layout, kept, debug, Obj(a));
    if layout[a].Pointee? { KnownStays(s, s', layout, kept, debug, layout[a].t); }
    if layout[a].Vector? { KnownStays(s, s', layout, kept, debug, layout[a].elem); }
  }

  lemma CollectionPreserves(s: State, s': State, layout: Layout, kept: map<nat, nat>, debug: bool)
    requires Sound(s, layout) && OneWordTargets(s, layout) && Collected(s, s', layout, kept, debug)
    ensures Preserved(s.h, s'.h, layout, KeptLayout(layout, kept))
  {
    hide SweepDone, Reachable, Extent, KindStays, WordsStay, LivingOk, Items, SameFrom, WellTyped, RootsOk, Has;
    var layout' := KeptLayout(layout, kept);
    RootsKnown(s, layout);
    KnownStays(s, s', layout, kept, debug, s.h.vectorOfAsts);
    forall a | a in layout'
      ensures SameFrom(s.h.mem, s'.h.mem, a, Extent(s.h.mem, a, layout'[a])) && KindStays(layout', layout'[a])
    {
      KeptStays(s, s', layout, kept, debug, a);
    }
    forall i | i in Items(s'.h, layout') ensures WordsStay(s.h, s'.h, layout', ItemWords(s.h, layout, i)) {
      ItemStays(s, s', layout, kept, debug, i);
    }
  }

  /** A kept object has its block. */
  lemma KeptIsOwned(s: State, s': State, layout: Layout, kept: map<nat, nat>, debug: bool, a: nat)
    requires Sound(s, layout) && OneWordTargets(s, layout) && Collected(s, s', layout, kept, debug)
    requires a in KeptLayout(layout, kept) && Preserved(s.h, s'.h, layout, KeptLayout(layout, kept))
    ensures Region(a, Extent(s'.h.mem, a, KeptLayout(layout, kept)[a])) in s'.owned
  {
    hide Preserved, Reachable, SweepDone, FunctionsCollected, WellTyped, RootsOk, Extent, GetSize, ObjectWords,
      LivingOk, Has, OneWordTargets;
    KeptIsReached(s, s', layout, kept, debug, a);
    KeptWordsSame(s, s', layout, kept, debug, a);
    SameObject(s.h, s'.h, layout, KeptLayout(layout, kept), a);
  }

  /** A collection leaves a well typed heap in which all kept objects have their blocks. */
  lemma CollectionIsSound(s: State, s': State, layout: Layout, kept: map<nat, nat>, debug: bool)
    requires Sound(s, layout) && OneWordTargets(s, layout) && Collected(s, s', layout, kept, debug)
    ensures Sound(s', KeptLayout(layout, kept)) && Accounted(s')
  {
    hide WellTyped, RootsOk, Reachable, SweepDone, Preserved, Extent, GetSize, Keeps, LivingOk, Has, Accounted,
      ObjectWords, MemoryCollected;
    var layout' := KeptLayout(layout, kept);
    CollectionPreserves(s, s', layout, kept, debug);
    assert WellTyped(s'.h, layout') by { PreservedIsWellTyped(s.h, s'.h, layout, layout'); }
    assert RootsOk(s'.h, layout', s'.typeRoots, s'.eventRoots) by { RootsStay(s, s', layout, kept, debug); }
    forall a | a in layout' ensures Region(a, Extent(s'.h.mem, a, layout'[a])) in s'.owned {
      KeptIsOwned(s, s', layout, kept, debug, a);
    }
    CollectedIsAccounted(s, s', layout, kept, debug);
  }

  lemma CollectedIsAccounted(s: State, s': State, layout: Layout, kept: map<nat, nat>, debug: bool)
    requires Sound(s, layout) && Collected(s, s', layout, kept, debug)
    ensures Accounted(s')
  {
    hide Traceable, FunctionsCollected, PoolOk, Gap;
    SweptCount(kept, s'.free, |s.h.mem|);
    assert s.h.vectorOfAsts <= NEVER_REACHED || s.h.vectorOfAsts in layout by { VectorTypePlaced(s, layout); }
    assert POOL_START <= |s.h.mem| by { VectorTypePlaced(s, layout); }
  }

  lemma VectorTypePlaced(s: State, layout: Layout)
    requires Traceable(s, layout)
    ensures s.h.vectorOfAsts in layout && POOL_START <= |s.h.mem|
  {
    ExtentPositive(s.h, layout, s.h.vectorOfAsts);
  }

  lemma RootsStay(s: State, s': State, layout: Layout, kept: map<nat, nat>, debug: bool)
    requires Sound(s, layout) && Collected(s, s', layout, kept, debug)
    requires Preserved(s.h, s'.h, layout, KeptLayout(layout, kept))
    ensures RootsOk(s'.h, KeptLayout(layout, kept), s'.typeRoots, s'.eventRoots)
  {
    hide WellTyped, Preserved, Reachable, TypesKnown, Known, Keeps, LivingOk, MemoryCollected, FunctionsCollected,
      WordsOk;
    var ws := RootWords(s.typeRoots, s.eventRoots);
    RootsKnown(s, layout);
    forall j | j in Targets(s.h.mem, ws) ensures Reachable(s.h, layout, RootSet(s), j) {
      ReachRoot(s.h, layout, RootSet(s), j);
    }
    ReachableWordsStay(s, s', layout, kept, debug, ws);
    WordsOkStay(s.h, s'.h, layout, KeptLayout(layout, kept), ws);
  }

  // ---------------------------------------------------------------- runs

  datatype Event =
    | Allocate(size: nat, place: nat)
    | Mutate
    | Collect(debug: bool, layout: Layout, kept: map<nat, nat>)

  ghost predicate Good(s: State) {
    Accounted(s) && exists layout: Layout :: Sound(s, layout)
  }

  /** The heap after the first allocation: the type of vectors of ASTs, which is the first
      root, at the start of the pool, and one free block. */
  function First(mem: seq<nat>, flags: seq<bv64>): State
    requires |mem| > POOL_START + 2
  {
    var rest := |mem| - POOL_START - 2;
    State(Heap(mem, map[], POOL_START), [POOL_START], [], [Region(POOL_START + 2, rest)], rest, flags,
      {Region(POOL_START, 2)})
  }

  /** Runs can start there. */
  lemma FirstIsGood(mem: seq<nat>, flags: seq<bv64>)
    requires |mem| > POOL_START + 2 && mem[POOL_START] == VECTOR && mem[POOL_START + 1] == AST_POINTER
    ensures Good(First(mem, flags))
  {
    var s, layout := First(mem, flags), map[POOL_START := Type];
    var b, c := Region(POOL_START, 2), s.free[0];
    assert Accounted(s) by {
      assert Elements(s.free) == {c} && Elements(s.free) + s.owned == {c, b};
      assert Sum(s.free[1..]) == 0;
      assert forall x: nat | POOL_START <= x < |mem| :: if x < POOL_START + 2 then Inside(x, b) else Inside(x, c);
    }
    assert Sound(s, layout) by {
      assert Same([POOL_START], TYPE_POINTER) == [TypedWord(POOL_START, TYPE_POINTER)];
    }
  }

  /** One event. What the program does between the others is only held to its types: it may
      change words, roots and functions as it likes, as long as there is again a typing of
      the blocks it was given. When a collection starts, the pointer targets that the roots
      reach have one word. */
  ghost predicate Step(s: State, e: Event, s': State) {
    match e
    case Allocate(size, place) =>
      && size > 0 && Take(s.free, size) == Some((s'.free, place))
      && s' == s.(free := s'.free, count := s.count - size, owned := s.owned + {Region(place, size)})
    case Mutate =>
      && |s'.h.mem| == |s.h.mem| && s'.free == s.free && s'.count == s.count && s'.owned == s.owned
      && exists layout: Layout :: Sound(s', layout)
    case Collect(debug, layout, kept) =>
      Sound(s, layout) && OneWordTargets(s, layout) && Collected(s, s', layout, kept, debug)
  }

  /** What may not happen: a reachable word changed by a collection, or handed out. */
  ghost predicate Safe(s: State, e: Event, s': State) {
    match e
    case Allocate(size, place) =>
      && s'.h == s.h
      && forall layout: Layout, a: nat | Sound(s, layout) && a in layout ::
           Apart(Region(a, Extent(s.h.mem, a, layout[a])), Region(place, size))
    case Mutate => true
    case Collect(debug, layout, kept) =>
      forall a | Reachable(s.h, layout, RootSet(s), Obj(a)) ::
        && a in layout
        && SameFrom(s.h.mem, s'.h.mem, a, Extent(s.h.mem, a, layout[a]))
        && Region(a, Extent(s.h.mem, a, layout[a])) in s'.owned
  }

  lemma AllocationIsSafe(s: State, e: Event, s': State)
    requires Good(s) && Step(s, e, s') && e.Allocate?
    ensures Good(s') && Safe(s, e, s')
  {
    hide Take, Traceable, Rooted;
    var b := TakeKeepsTiling(s.free, s.owned, s.count, POOL_START, |s.h.mem|, e.size);
    var given := Region(e.place, e.size);
    assert Tiles(Elements(s'.free) + s'.owned, POOL_START, |s.h.mem|);
    forall layout: Layout, a: nat | Sound(s, layout) && a in layout
      ensures Apart(Region(a, Extent(s.h.mem, a, layout[a])), given)
    {
      assert Region(a, Extent(s.h.mem, a, layout[a])) in s.owned;
    }
    var layout: Layout :| Sound(s, layout);
    SoundMore(s, s', layout);
  }

  lemma SoundMore(s: State, s': State, layout: Layout)
    requires Sound(s, layout) && s.owned <= s'.owned && s' == s.(free := s'.free, count := s'.count, owned := s'.owned)
    ensures Sound(s', layout)
  {
    hide WellTyped, RootsOk, Extent, GetSize;
  }

  lemma CollectionIsSafe(s: State, e: Event, s': State)
    requires Step(s, e, s') && e.Collect?
    ensures Good(s') && Safe(s, e, s')
  {
    hide Traceable, Reachable, SweepDone, Extent, Accounted;
    CollectionIsSound(s, s', e.layout, e.kept, e.debug);
    forall a | Reachable(s.h, e.layout, RootSet(s), Obj(a))
      ensures a in e.layout && SameFrom(s.h.mem, s'.h.mem, a, Extent(s.h.mem, a, e.layout[a]))
      ensures Region(a, Extent(s.h.mem, a, e.layout[a])) in s'.owned
    {
      assert a in KeptLayout(e.layout, e.kept);
      KeptIsReached(s, s', e.layout, e.kept, e.debug, a);
      KeptWordsSame(s, s', e.layout, e.kept, e.debug, a);
    }
  }

  /** Safety over whole runs: in any interleaving of allocations, changes by the program and
      collections, the pool stays tiled and accounted for, the heap stays well typed, no
      collection changes a word of an object that the roots reach, and no allocation hands
      one out. */
  lemma {:induction false} RunsAreSafe(run: seq<State>, events: seq<Event>)
    requires |run| == |events| + 1 && Good(run[0])
    requires forall i | 0 <= i < |events| :: Step(run[i], events[i], run[i + 1])
    ensures forall i | 0 <= i < |run| :: Good(run[i])
    ensures forall i | 0 <= i < |events| :: Safe(run[i], events[i], run[i + 1])
  {
    hide Good, Step, Safe;
    for i := 0 to |events|
      invariant forall j | 0 <= j <= i :: Good(run[j])
      invariant forall j | 0 <= j < i :: Safe(run[j], events[j], run[j + 1])
    {
      assert Step(run[i], events[i], run[i + 1]);
      StepIsSafe(run[i], events[i], run[i + 1]);
    }
  }

  lemma StepIsSafe(s: State, e: Event, s': State)
    requires Good(s) && Step(s, e, s')
    ensures Good(s') && Safe(s, e, s')
  {
    match e {
      case Allocate(_, _) => AllocationIsSafe(s, e, s');
      case Collect(_, _, _) => CollectionIsSafe(s, e, s');
      case Mutate =>
    }
  }
}
