/**
 What the program does to the heap between allocations and collections: it stores words of
 the right type, and makes objects in the blocks it was given. Both leave a heap that a
 collection can work on.
 */
module Mutations {
  import opened FunctionPool
  import opened FreeList
  import opened Heap
  import opened Tags
  import opened Marking
  import opened Collecting
  import opened Retention
  import opened HeapRuns

  // ---------------------------------------------------------------- the words of one object

  /** Where the typed words of an object begin. */
  function Offset(mem: seq<nat>, a: nat, k: Kind): nat {
    match k
    case Pointee(_) => 0
    case Dynamic => 0
    case Vector(_) => 2
    case Ast => 1
    case Type => if At(mem, a) == CON_VEC then 2 else 1
  }

  /** Their types. */
  function OwnTypes(h: Heap, a: nat, k: Kind): seq<nat> {
    match k
    case Pointee(t) => Components(h.mem, t)
    case Dynamic => [TYPE_POINTER] + Components(h.mem, At(h.mem, a))
    case Vector(elem) => seq(At(h.mem, a), _ => elem)
    case Ast =>
      var tag := At(h.mem, a);
      if tag == IMV then [DYNAMIC]
      else if tag == BASIC_BLOCK then [h.vectorOfAsts]
      else seq(AstSize(tag), _ => AST_POINTER)
    case Type => seq(if At(h.mem, a) == CON_VEC then At(h.mem, a + 1) else 1, _ => TYPE_POINTER)
  }

  /** The typed words that lie in the object itself. */
  function OwnWords(h: Heap, a: nat, k: Kind): seq<TypedWord> {
    var at, types := a + Offset(h.mem, a, k), OwnTypes(h, a, k);
    if at + |types| <= |h.mem| then Typed(h.mem[at..at + |types|], types) else []
  }

  predicate IsBlock(h: Heap, a: nat, k: Kind) {
    k.Ast? && At(h.mem, a) == BASIC_BLOCK
  }

  /** A collection also looks through the vector of a basic block with it. */
  lemma ObjectWordsAre(h: Heap, a: nat, k: Kind)
    requires POOL_START <= a && a + Offset(h.mem, a, k) + |OwnTypes(h, a, k)| <= |h.mem|
    ensures ObjectWords(h, a, k) ==
      OwnWords(h, a, k) + if IsBlock(h, a, k) then Same(VectorWords(h.mem, BlockVector(h.mem, a)), AST_POINTER) else []
  {
    match k {
      case Pointee(t) =>
      case Dynamic => DynamicOwnWords(h, a);
      case Vector(elem) => VectorOwnWords(h, a, elem);
      case Ast => AstOwnWords(h, a);
      case Type => TypeOwnWords(h, a);
    }
  }

  lemma DynamicOwnWords(h: Heap, a: nat)
    requires a + |OwnTypes(h, a, Dynamic)| <= |h.mem|
    ensures ObjectWords(h, a, Dynamic) == OwnWords(h, a, Dynamic)
  {
    hide Components;
    var types := Components(h.mem, At(h.mem, a));
    assert h.mem[a..a + 1 + |types|] == [h.mem[a]] + h.mem[a + 1..a + 1 + |types|];
  }

  lemma VectorOwnWords(h: Heap, a: nat, elem: nat)
    requires a + 2 + At(h.mem, a) <= |h.mem|
    ensures ObjectWords(h, a, Vector(elem)) == OwnWords(h, a, Vector(elem))
  {
  }

  lemma AstOwnWords(h: Heap, a: nat)
    requires a + 1 + |OwnTypes(h, a, Ast)| <= |h.mem|
    ensures ObjectWords(h, a, Ast) ==
      OwnWords(h, a, Ast) + if IsBlock(h, a, Ast) then Same(VectorWords(h.mem, BlockVector(h.mem, a)), AST_POINTER)
        else []
  {
    hide VectorWords;
  }

  lemma TypeOwnWords(h: Heap, a: nat)
    requires POOL_START <= a && a + Offset(h.mem, a, Type) + |OwnTypes(h, a, Type)| <= |h.mem|
    ensures ObjectWords(h, a, Type) == OwnWords(h, a, Type)
  {
    var u, v := ObjectWords(h, a, Type), OwnWords(h, a, Type);
    if At(h.mem, a) == CON_VEC {
      forall i | 0 <= i < |u| ensures u[i] == v[i] {}
    }
  }

  lemma OwnWordsFit(h: Heap, layout: Layout, a: nat)
    requires WellTyped(h, layout) && a in layout
    ensures var k := layout[a];
      && a + Offset(h.mem, a, k) + |OwnTypes(h, a, k)| <= a + Extent(h.mem, a, k) <= |h.mem|
      && |OwnWords(h, a, k)| == |OwnTypes(h, a, k)| && WordsOk(h, layout, OwnWords(h, a, k))
  {
    var k := layout[a];
    assert ObjectOk(h, layout, a, k);
    if k.Pointee? { ComponentsSize(h, layout, k.t); }
    if k.Dynamic? { ComponentsSize(h, layout, At(h.mem, a)); }
    hide WellTyped, TypeOk, Components, WordOk;
    ObjectWordsAre(h, a, k);
    var ws := ObjectWords(h, a, k);
    forall i | 0 <= i < |OwnWords(h, a, k)| ensures OwnWords(h, a, k)[i] == ws[i] {}
  }

  // ---------------------------------------------------------------- what every change keeps

  /** Types do not change, nor do the words that say how large an object is. */
  ghost predicate HeaderSame(mem: seq<nat>, mem': seq<nat>, a: nat, k: Kind) {
    match k
    case Pointee(_) => true
    case Dynamic => At(mem', a) == At(mem, a)
    case Vector(_) => At(mem', a + 1) == At(mem, a + 1)
    case Ast => At(mem', a) == At(mem, a)
    case Type => SameFrom(mem, mem', a, Extent(mem, a, k))
  }

  /** The objects and functions that were there still are, and there may be more. */
  ghost predicate Changes(h: Heap, h': Heap, layout: Layout, layout': Layout) {
    && |h'.mem| == |h.mem| && h'.vectorOfAsts == h.vectorOfAsts
    && (forall w | w in h.functions :: w in h'.functions)
    && (forall a | a in layout :: a in layout' && layout'[a] == layout[a])
    && (forall a | a in layout :: HeaderSame(h.mem, h'.mem, a, layout[a]))
  }

  lemma TypeObjectSame(h: Heap, h': Heap, layout: Layout, layout': Layout, t: nat)
    requires Changes(h, h', layout, layout') && WellTyped(h, layout)
    requires t > NEVER_REACHED && t in layout && layout[t] == Type
    ensures Ver(h'.mem, t) == Ver(h.mem, t) && GetSize(h'.mem, t) == GetSize(h.mem, t)
    ensures Field(h'.mem, t, 0) == Field(h.mem, t, 0)
    ensures Components(h'.mem, t) == Components(h.mem, t) && t in layout' && layout'[t] == Type
  {
    assert HasFields(At(h.mem, t)) && t + Extent(h.mem, t, Type) <= |h.mem| by { assert ObjectOk(h, layout, t, Type); }
    assert HeaderSame(h.mem, h'.mem, t, Type);
    hide *;
    TypeHeader(h.mem, h'.mem, t);
    SameTypeWords(h.mem, h'.mem, t);
    assert t in layout' && layout'[t] == Type by { Kept(h, h', layout, layout', t); }
  }

  lemma TypeHeader(mem: seq<nat>, mem': seq<nat>, t: nat)
    requires HeaderSame(mem, mem', t, Type)
    ensures SameFrom(mem, mem', t, Extent(mem, t, Type))
  {
  }

  lemma Kept(h: Heap, h': Heap, layout: Layout, layout': Layout, a: nat)
    requires Changes(h, h', layout, layout') && a in layout
    ensures a in layout' && layout'[a] == layout[a]
  {
  }

  lemma SimpleSame(h: Heap, h': Heap, layout: Layout, layout': Layout, t: nat)
    requires Changes(h, h', layout, layout') && WellTyped(h, layout) && SimpleType(h.mem, layout, t)
    ensures SimpleType(h'.mem, layout', t) && Ver(h'.mem, t) == Ver(h.mem, t)
    ensures t > NEVER_REACHED ==> Field(h'.mem, t, 0) == Field(h.mem, t, 0)
  {
    if t > NEVER_REACHED { TypeObjectSame(h, h', layout, layout', t); }
    hide Changes, WellTyped;
  }

  lemma TypeSame(h: Heap, h': Heap, layout: Layout, layout': Layout, t: nat)
    requires Changes(h, h', layout, layout') && WellTyped(h, layout) && TypeOk(h.mem, layout, t)
    ensures TypeOk(h'.mem, layout', t)
    ensures Components(h'.mem, t) == Components(h.mem, t) && GetSize(h'.mem, t) == GetSize(h.mem, t)
  {
    hide Changes, WellTyped, SimpleType;
    if t > NEVER_REACHED { TypeObjectSame(h, h', layout, layout', t); }
    forall c | c in Components(h.mem, t)
      ensures SimpleType(h'.mem, layout', c)
    { SimpleSame(h, h', layout, layout', c); }
  }

  lemma WordSame(h: Heap, h': Heap, layout: Layout, layout': Layout, w: TypedWord)
    requires Changes(h, h', layout, layout') && WellTyped(h, layout) && WordOk(h, layout, w)
    ensures WordOk(h', layout', w)
  {
    SimpleSame(h, h', layout, layout', w.ty);
    hide WellTyped, SimpleType, HeaderSame;
    assert HasFields(Ver(h.mem, w.ty)) ==> w.ty > NEVER_REACHED by { TagsAreSimple(h, layout, w); }
  }

  lemma TagsAreSimple(h: Heap, layout: Layout, w: TypedWord)
    requires WordOk(h, layout, w)
    ensures HasFields(Ver(h.mem, w.ty)) ==> w.ty > NEVER_REACHED
  {
  }

  lemma WordsSame(h: Heap, h': Heap, layout: Layout, layout': Layout, ws: seq<TypedWord>)
    requires Changes(h, h', layout, layout') && WellTyped(h, layout) && WordsOk(h, layout, ws)
    ensures WordsOk(h', layout', ws)
  {
    hide Changes, WellTyped, WordOk;
    forall i | 0 <= i < |ws| ensures WordOk(h', layout', ws[i]) { WordSame(h, h', layout, layout', ws[i]); }
  }

  /** The sizes of objects stay, and the types of their words, but for the elements of vectors. */
  lemma ShapeSame(h: Heap, h': Heap, layout: Layout, layout': Layout, a: nat)
    requires Changes(h, h', layout, layout') && WellTyped(h, layout) && a in layout
    ensures Extent(h'.mem, a, layout[a]) == Extent(h.mem, a, layout[a])
    ensures Offset(h'.mem, a, layout[a]) == Offset(h.mem, a, layout[a])
    ensures !layout[a].Vector? ==> OwnTypes(h', a, layout[a]) == OwnTypes(h, a, layout[a])
  {
    var k := layout[a];
    assert ObjectOk(h, layout, a, k);
    assert HeaderSame(h.mem, h'.mem, a, k) && h'.vectorOfAsts == h.vectorOfAsts && |h'.mem| == |h.mem|;
    match k {
      case Pointee(t) => TypeSame(h, h', layout, layout', t);
      case Dynamic => TypeSame(h, h', layout, layout', At(h.mem, a));
      case Vector(_) =>
      case Ast =>
      case Type => TypeObjectSame(h, h', layout, layout', a);
    }
    hide Changes, WellTyped, ObjectOk, TypeOk, Components, SimpleType;
  }

  // ---------------------------------------------------------------- objects that were there

  /** The words of an object are right for their types, as they are in the old heap. */
  ghost predicate StillOk(h: Heap, h': Heap, layout: Layout, a: nat)
    requires a in layout
  {
    && WordsOk(h, layout, OwnWords(h', a, layout[a]))
    && (layout[a].Vector? ==> At(h'.mem, a) <= At(h'.mem, a + 1))
  }

  ghost predicate AllStillOk(h: Heap, h': Heap, layout: Layout) {
    forall a | a in layout :: StillOk(h, h', layout, a)
  }

  lemma HeaderOk(h: Heap, h': Heap, layout: Layout, layout': Layout, a: nat)
    requires Changes(h, h', layout, layout') && WellTyped(h, layout) && a in layout
    ensures var k := layout[a];
      && POOL_START <= a && a + Extent(h'.mem, a, k) <= |h'.mem|
      && (k.Pointee? ==> TypeOk(h'.mem, layout', k.t))
      && (k.Dynamic? ==> TypeOk(h'.mem, layout', At(h'.mem, a)))
      && (k.Ast? ==> At(h'.mem, a) < |AST_FIELDS|)
      && (k.Type? ==> HasFields(At(h'.mem, a)) && TypeFields(h'.mem, layout', a))
  {
    var k := layout[a];
    assert ObjectOk(h, layout, a, k) && HeaderSame(h.mem, h'.mem, a, k) && |h'.mem| == |h.mem|;
    hide Changes, WellTyped, TypeOk, WordsOk;
    ShapeSame(h, h', layout, layout', a);
    match k {
      case Pointee(t) => TypeSame(h, h', layout, layout', t);
      case Dynamic => TypeSame(h, h', layout, layout', At(h.mem, a));
      case Vector(_) =>
      case Ast =>
      case Type =>
        TypeObjectSame(h, h', layout, layout', a);
        if At(h.mem, a) == CON_VEC { TypeSame(h, h', layout, layout', a); }
          else { TypeSame(h, h', layout, layout', Field(h.mem, a, 0)); }
    }
  }

  lemma OwnFits(h: Heap, h': Heap, layout: Layout, layout': Layout, a: nat)
    requires Changes(h, h', layout, layout') && WellTyped(h, layout) && a in layout && StillOk(h, h', layout, a)
    ensures var k := layout[a];
      a + Offset(h'.mem, a, k) + |OwnTypes(h', a, k)| <= a + Extent(h'.mem, a, k) <= |h'.mem|
  {
    hide WordsOk, OwnWords, TypeOk;
    HeaderOk(h, h', layout, layout', a);
    ShapeSame(h, h', layout, layout', a);
    if !layout[a].Vector? { OwnWordsFit(h, layout, a); }
    hide Changes, WellTyped;
  }

  /** The vector that a basic block refers to has ASTs as elements. */
  lemma BlockPointer(h: Heap, h': Heap, layout: Layout, a: nat)
    requires WellTyped(h, layout) && h'.vectorOfAsts == h.vectorOfAsts
    requires a in layout && StillOk(h, h', layout, a) && IsBlock(h', a, layout[a]) && a + 2 <= |h'.mem|
    ensures BlockVector(h'.mem, a) in layout && layout[BlockVector(h'.mem, a)] == Vector(AST_POINTER)
  {
    hide WellTyped, VectorWords, WordOk, OwnWords, Extent;
    BlockOwnWords(h', a);
    assert WordOk(h, layout, OwnWords(h', a, Ast)[0]);
    VectorOfAsts(h, layout, BlockVector(h'.mem, a));
  }

  lemma BlockOwnWords(h: Heap, a: nat)
    requires At(h.mem, a) == BASIC_BLOCK && a + 2 <= |h.mem|
    ensures OwnWords(h, a, Ast) == [TypedWord(BlockVector(h.mem, a), h.vectorOfAsts)]
  {
  }

  lemma VectorOfAsts(h: Heap, layout: Layout, v: nat)
    requires WellTyped(h, layout) && WordOk(h, layout, TypedWord(v, h.vectorOfAsts))
    ensures v in layout && layout[v] == Vector(AST_POINTER)
  {
    hide ObjectOk, WordsOk, Extent, SimpleType;
  }

  lemma ElementsOk(h: Heap, h': Heap, layout: Layout, layout': Layout, v: nat)
    requires Changes(h, h', layout, layout') && WellTyped(h, layout)
    requires v in layout && layout[v] == Vector(AST_POINTER) && StillOk(h, h', layout, v)
    ensures WordsOk(h', layout', Same(VectorWords(h'.mem, v), AST_POINTER))
  {
    OwnFits(h, h', layout, layout', v);
    hide Changes, WellTyped, WordsOk, VectorWords, OwnWords;
    VectorOwnWords(h', v, AST_POINTER);
    WordsSame(h, h', layout, layout', OwnWords(h', v, layout[v]));
  }

  lemma BlockWordsOk(h: Heap, h': Heap, layout: Layout, layout': Layout, a: nat)
    requires Changes(h, h', layout, layout') && WellTyped(h, layout) && AllStillOk(h, h', layout)
    requires a in layout && IsBlock(h', a, layout[a])
    ensures WordsOk(h', layout', Same(VectorWords(h'.mem, BlockVector(h'.mem, a)), AST_POINTER))
  {
    assert StillOk(h, h', layout, a) && h'.vectorOfAsts == h.vectorOfAsts;
    hide WellTyped, StillOk, HeaderSame, Extent;
    BlockFits(h, h', layout, layout', a);
    BlockPointer(h, h', layout, a);
    assert StillOk(h, h', layout, BlockVector(h'.mem, a));
    hide AllStillOk, Changes, VectorWords;
    ElementsOk(h, h', layout, layout', BlockVector(h'.mem, a));
  }

  lemma BlockFits(h: Heap, h': Heap, layout: Layout, layout': Layout, a: nat)
    requires Changes(h, h', layout, layout') && WellTyped(h, layout) && a in layout && StillOk(h, h', layout, a)
    requires IsBlock(h', a, layout[a])
    ensures a + 2 <= |h'.mem|
  {
    OwnFits(h, h', layout, layout', a);
    hide Changes, WellTyped, StillOk;
  }

  lemma OldObjectOk(h: Heap, h': Heap, layout: Layout, layout': Layout, a: nat)
    requires Changes(h, h', layout, layout') && WellTyped(h, layout) && AllStillOk(h, h', layout) && a in layout
    ensures ObjectOk(h', layout', a, layout[a])
  {
    assert StillOk(h, h', layout, a);
    hide Changes, WellTyped, AllStillOk, WordOk, TypeOk, TypeFields, Extent, OwnTypes, Offset, OwnWords, VectorWords,
      ObjectWords;
    HeaderOk(h, h', layout, layout', a);
    OwnFits(h, h', layout, layout', a);
    WordsSame(h, h', layout, layout', OwnWords(h', a, layout[a]));
    if IsBlock(h', a, layout[a]) { BlockWordsOk(h, h', layout, layout', a); }
    ObjectWordsAre(h', a, layout[a]);
  }

  /** A changed heap is well typed if the old objects still are, and the new ones and the
      functions are, too. */
  lemma ChangedIsWellTyped(h: Heap, h': Heap, layout: Layout, layout': Layout)
    requires Changes(h, h', layout, layout') && WellTyped(h, layout) && AllStillOk(h, h', layout)
    requires forall a | a in layout' && a !in layout :: ObjectOk(h', layout', a, layout'[a])
    requires forall a, b | a in layout' && b in layout' && a < b :: a + Extent(h'.mem, a, layout'[a]) <= b
    requires forall w | w in h'.functions :: WordsOk(h', layout', FunctionWords(h'.functions[w]))
    requires forall w, v | w in h'.functions && v in h'.functions && w != v ::
      h'.functions[w].slot != h'.functions[v].slot
    ensures WellTyped(h', layout')
  {
    hide ObjectOk, WordsOk, Extent, HeaderSame, AllStillOk, SimpleType;
    forall a | a in layout' ensures ObjectOk(h', layout', a, layout'[a]) {
      if a in layout { OldObjectOk(h, h', layout, layout', a); }
    }
    SimpleSame(h, h', layout, layout', h.vectorOfAsts);
    assert h.vectorOfAsts > NEVER_REACHED by { VectorTypeIsObject(h, layout); }
  }

  lemma VectorTypeIsObject(h: Heap, layout: Layout)
    requires WellTyped(h, layout)
    ensures h.vectorOfAsts > NEVER_REACHED
  {
    hide ObjectOk, WordsOk;
  }

  // ---------------------------------------------------------------- storing a word

  /** The place of the i-th word of an object. */
  function Place(h: Heap, layout: Layout, a: nat, i: nat): nat
    requires a in layout
  {
    a + Offset(h.mem, a, layout[a]) + i
  }

  /** A word that may be stored to: not in a type, and not the type of a dynamic object. */
  ghost predicate IsSlot(h: Heap, layout: Layout, a: nat, i: nat) {
    && a in layout && !layout[a].Type? && i < |OwnTypes(h, a, layout[a])|
    && (layout[a].Dynamic? ==> i > 0)
  }

  function Stored(h: Heap, x: nat, w: nat): Heap {
    if x < |h.mem| then h.(mem := h.mem[x := w]) else h
  }

  /** The words of all other objects are elsewhere. */
  lemma OtherPlace(h: Heap, layout: Layout, a: nat, i: nat, b: nat)
    requires WellTyped(h, layout) && IsSlot(h, layout, a, i) && b in layout && b != a
    ensures var x := Place(h, layout, a, i);
      a <= x < |h.mem| && (x < b || x >= b + Extent(h.mem, b, layout[b]))
  {
    OwnWordsFit(h, layout, a);
    hide Extent, Offset, OwnTypes, OwnWords, ObjectOk, WordsOk;
  }

  lemma PlaceInside(h: Heap, layout: Layout, a: nat, i: nat)
    requires WellTyped(h, layout) && IsSlot(h, layout, a, i)
    ensures a <= Place(h, layout, a, i) < a + Extent(h.mem, a, layout[a]) <= |h.mem|
  {
    OwnWordsFit(h, layout, a);
    hide WellTyped, Extent, Offset, OwnTypes, OwnWords, WordsOk;
  }

  lemma StoredHeader(h: Heap, layout: Layout, a: nat, i: nat, w: nat, b: nat)
    requires WellTyped(h, layout) && IsSlot(h, layout, a, i) && b in layout
    ensures var h' := Stored(h, Place(h, layout, a, i), w);
      HeaderSame(h.mem, h'.mem, b, layout[b]) && (layout[b].Vector? ==> At(h'.mem, b) == At(h.mem, b))
  {
    hide WellTyped, OwnTypes, GetSize;
    PlaceInside(h, layout, a, i);
    if b != a { OtherPlace(h, layout, a, i, b); }
    ExtentPositive(h, layout, b);
  }

  lemma StoredChanges(h: Heap, layout: Layout, a: nat, i: nat, w: nat)
    requires WellTyped(h, layout) && IsSlot(h, layout, a, i)
    ensures Changes(h, Stored(h, Place(h, layout, a, i), w), layout, layout)
  {
    hide WellTyped, HeaderSame, Place, OwnTypes;
    forall b | b in layout ensures HeaderSame(h.mem, Stored(h, Place(h, layout, a, i), w).mem, b, layout[b]) {
      StoredHeader(h, layout, a, i, w, b);
    }
  }

  lemma StoredStillOk(h: Heap, layout: Layout, a: nat, i: nat, w: nat, b: nat)
    requires WellTyped(h, layout) && IsSlot(h, layout, a, i) && b in layout
    requires WordOk(h, layout, TypedWord(w, OwnTypes(h, a, layout[a])[i]))
    ensures StillOk(h, Stored(h, Place(h, layout, a, i), w), layout, b)
  {
    hide WellTyped, OwnTypes, Offset, Extent, WordOk, Changes, HeaderSame, OwnWords;
    var x, k := Place(h, layout, a, i), layout[b];
    var h' := Stored(h, x, w);
    PlaceInside(h, layout, a, i);
    StoredChanges(h, layout, a, i, w);
    StoredShape(h, layout, a, i, w, b);
    OwnWordsFit(h, layout, b);
    if b != a { OtherPlace(h, layout, a, i, b); }
    StoredWords(h, h', b, k, x, w);
    var ws, ws' := OwnWords(h, b, k), OwnWords(h', b, k);
    forall j | 0 <= j < |ws'| ensures WordOk(h, layout, ws'[j]) {
      assert WordOk(h, layout, ws[j]);
    }
  }

  lemma StoredShape(h: Heap, layout: Layout, a: nat, i: nat, w: nat, b: nat)
    requires WellTyped(h, layout) && IsSlot(h, layout, a, i) && b in layout
    ensures var h' := Stored(h, Place(h, layout, a, i), w);
      && OwnTypes(h', b, layout[b]) == OwnTypes(h, b, layout[b])
           && Offset(h'.mem, b, layout[b]) == Offset(h.mem, b, layout[b])
      && (layout[b].Vector? ==> At(h'.mem, b) <= At(h'.mem, b + 1))
  {
    var h' := Stored(h, Place(h, layout, a, i), w);
    StoredChanges(h, layout, a, i, w);
    StoredHeader(h, layout, a, i, w, b);
    ShapeSame(h, h', layout, layout, b);
    VectorSizes(h, layout, b);
    hide WellTyped, Changes, Extent, Components, Stored;
  }

  lemma StoredWords(h: Heap, h': Heap, b: nat, k: Kind, x: nat, w: nat)
    requires OwnTypes(h', b, k) == OwnTypes(h, b, k) && Offset(h'.mem, b, k) == Offset(h.mem, b, k)
    requires x < |h.mem| && h'.mem == h.mem[x := w] && b + Offset(h.mem, b, k) + |OwnTypes(h, b, k)| <= |h.mem|
    ensures var types, ws, ws' := OwnTypes(h, b, k), OwnWords(h, b, k), OwnWords(h', b, k);
      && |ws| == |ws'| == |types|
      && forall j | 0 <= j < |types| :: ws'[j] == if b + Offset(h.mem, b, k) + j == x then TypedWord(w, types[j])
           else ws[j]
  {
    hide OwnTypes, Offset;
  }

  lemma VectorSizes(h: Heap, layout: Layout, a: nat)
    requires WellTyped(h, layout) && a in layout
    ensures layout[a].Vector? ==> At(h.mem, a) <= At(h.mem, a + 1)
  {
    assert ObjectOk(h, layout, a, layout[a]);
  }

  // ---------------------------------------------------------------- the changes of the program

  /** A change that keeps the heap well typed, and keeps to the blocks that were given, may
      happen between two collections. */
  lemma ChangedIsSound(s: State, s': State, layout: Layout, layout': Layout)
    requires Sound(s, layout) && Changes(s.h, s'.h, layout, layout') && WellTyped(s'.h, layout')
    requires s'.owned == s.owned && RootsOk(s'.h, layout', s'.typeRoots, s'.eventRoots) && Rooted(s')
    requires forall w | w in s'.h.functions :: Has(s'.flags, s'.h.functions[w].slot)
    requires forall a | a in layout' && a !in layout :: Region(a, Extent(s'.h.mem, a, layout'[a])) in s'.owned
    ensures Sound(s', layout')
  {
    hide WellTyped, RootsOk, Has, Extent, GetSize;
    forall a | a in layout' ensures Region(a, Extent(s'.h.mem, a, layout'[a])) in s'.owned {
      if a in layout {
        Kept(s.h, s'.h, layout, layout', a);
        ShapeSame(s.h, s'.h, layout, layout', a);
      }
    }
    hide Changes;
  }

  /** Between two collections the program may store a word of the right type. */
  lemma StoreIsMutation(s: State, layout: Layout, a: nat, i: nat, w: nat)
    requires Sound(s, layout) && IsSlot(s.h, layout, a, i)
    requires WordOk(s.h, layout, TypedWord(w, OwnTypes(s.h, a, layout[a])[i]))
    ensures var s' := s.(h := Stored(s.h, Place(s.h, layout, a, i), w)); Sound(s', layout) && Step(s, Mutate, s')
  {
    hide WellTyped, OwnTypes, Place, WordOk, Has, RootsOk, Extent;
    var s' := s.(h := Stored(s.h, Place(s.h, layout, a, i), w));
    StoredChanges(s.h, layout, a, i, w);
    forall b | b in layout ensures StillOk(s.h, s'.h, layout, b) { StoredStillOk(s.h, layout, a, i, w, b); }
    hide StillOk;
    SameFunctions(s.h, s'.h, layout, layout);
    SameApart(s.h, s'.h, layout, layout);
    ChangedIsWellTyped(s.h, s'.h, layout, layout);
    SameRoots(s, s', layout, layout);
    ChangedIsSound(s, s', layout, layout);
    hide Sound;
  }

  lemma SameFunctions(h: Heap, h': Heap, layout: Layout, layout': Layout)
    requires Changes(h, h', layout, layout') && WellTyped(h, layout) && h'.functions == h.functions
    ensures forall w | w in h'.functions :: WordsOk(h', layout', FunctionWords(h'.functions[w]))
    ensures forall w, v | w in h'.functions && v in h'.functions && w != v ::
      h'.functions[w].slot != h'.functions[v].slot
  {
    hide ObjectOk, WordsOk, Changes;
    forall w | w in h'.functions ensures WordsOk(h', layout', FunctionWords(h'.functions[w])) {
      WordsSame(h, h', layout, layout', FunctionWords(h.functions[w]));
    }
  }

  lemma SameApart(h: Heap, h': Heap, layout: Layout, layout': Layout)
    requires Changes(h, h', layout, layout') && WellTyped(h, layout)
    ensures forall a, b | a in layout && b in layout && a < b :: a + Extent(h'.mem, a, layout[a]) <= b
  {
    hide ObjectOk, WordsOk, Changes, Extent;
    forall a, b | a in layout && b in layout && a < b ensures a + Extent(h'.mem, a, layout[a]) <= b {
      ShapeSame(h, h', layout, layout', a);
    }
  }

  lemma SameRoots(s: State, s': State, layout: Layout, layout': Layout)
    requires Changes(s.h, s'.h, layout, layout') && WellTyped(s.h, layout)
    requires RootsOk(s.h, layout, s.typeRoots, s.eventRoots)
    requires s'.typeRoots == s.typeRoots && s'.eventRoots == s.eventRoots
    ensures RootsOk(s'.h, layout', s'.typeRoots, s'.eventRoots)
  {
    WordsSame(s.h, s'.h, layout, layout', RootWords(s.typeRoots, s.eventRoots));
  }

  // ---------------------------------------------------------------- pushing to a vector

  /** A vector with room gets one more element. */
  function Pushed(h: Heap, a: nat, w: nat): Heap {
    var n := At(h.mem, a);
    if a + 2 + n < |h.mem| then h.(mem := h.mem[a + 2 + n := w][a := n + 1]) else h
  }

  ghost predicate HasRoom(h: Heap, layout: Layout, a: nat) {
    a in layout && layout[a].Vector? && At(h.mem, a) < At(h.mem, a + 1)
  }

  lemma PushedOther(h: Heap, layout: Layout, a: nat, w: nat, b: nat)
    requires WellTyped(h, layout) && HasRoom(h, layout, a) && b in layout && b != a
    ensures SameFrom(h.mem, Pushed(h, a, w).mem, b, Extent(h.mem, b, layout[b]))
  {
    hide WellTyped, Extent;
    Room(h, layout, a);
    ObjectsApart(h, layout, a, b);
  }

  lemma Room(h: Heap, layout: Layout, a: nat)
    requires WellTyped(h, layout) && HasRoom(h, layout, a)
    ensures a + 2 + At(h.mem, a) < a + 2 + At(h.mem, a + 1) == a + Extent(h.mem, a, layout[a]) <= |h.mem|
  {
    ExtentPositive(h, layout, a);
    hide WellTyped;
  }

  lemma ObjectsApart(h: Heap, layout: Layout, a: nat, b: nat)
    requires WellTyped(h, layout) && a in layout && b in layout && a != b
    ensures a + Extent(h.mem, a, layout[a]) <= b || b + Extent(h.mem, b, layout[b]) <= a
  {
    hide Extent, ObjectOk, WordsOk;
  }

  lemma PushedHeader(h: Heap, layout: Layout, a: nat, w: nat, b: nat)
    requires WellTyped(h, layout) && HasRoom(h, layout, a) && b in layout
    ensures HeaderSame(h.mem, Pushed(h, a, w).mem, b, layout[b])
  {
    ExtentPositive(h, layout, a);
    ExtentPositive(h, layout, b);
    if b != a { PushedOther(h, layout, a, w, b); }
    hide WellTyped;
  }

  lemma PushedChanges(h: Heap, layout: Layout, a: nat, w: nat)
    requires WellTyped(h, layout) && HasRoom(h, layout, a)
    ensures Changes(h, Pushed(h, a, w), layout, layout)
  {
    hide WellTyped, HeaderSame;
    forall b | b in layout
      ensures HeaderSame(h.mem, Pushed(h, a, w).mem, b, layout[b])
    { PushedHeader(h, layout, a, w, b); }
  }

  lemma PushedStillOk(h: Heap, layout: Layout, a: nat, w: nat, b: nat)
    requires WellTyped(h, layout) && HasRoom(h, layout, a) && b in layout
    requires WordOk(h, layout, TypedWord(w, layout[a].elem))
    ensures StillOk(h, Pushed(h, a, w), layout, b)
  {
    hide WellTyped, Extent, WordOk, Changes, OwnWords, OwnTypes, Offset, Pushed, SameFrom;
    var h' := Pushed(h, a, w);
    PushedChanges(h, layout, a, w);
    OwnWordsFit(h, layout, b);
    if b == a {
      PushedWords(h, layout, a, w);
      var ws := OwnWords(h, a, layout[a]);
      forall j | 0 <= j < |ws| ensures WordOk(h, layout, ws[j]) {}
    } else {
      PushedOther(h, layout, a, w, b);
      PushedShape(h, layout, a, w, b);
      SameOwnWords(h, h', b, layout[b]);
    }
  }

  lemma PushedShape(h: Heap, layout: Layout, a: nat, w: nat, b: nat)
    requires WellTyped(h, layout) && HasRoom(h, layout, a) && b in layout && b != a
    ensures var h' := Pushed(h, a, w);
      && OwnTypes(h', b, layout[b]) == OwnTypes(h, b, layout[b])
           && Offset(h'.mem, b, layout[b]) == Offset(h.mem, b, layout[b])
      && (layout[b].Vector? ==> At(h'.mem, b) <= At(h'.mem, b + 1))
  {
    var h' := Pushed(h, a, w);
    PushedChanges(h, layout, a, w);
    PushedOther(h, layout, a, w, b);
    ExtentPositive(h, layout, b);
    VectorSizes(h, layout, b);
    hide WellTyped, Changes, Components, Pushed;
    ShapeSame(h, h', layout, layout, b);
  }

  lemma PushedWords(h: Heap, layout: Layout, a: nat, w: nat)
    requires WellTyped(h, layout) && HasRoom(h, layout, a)
    ensures var h' := Pushed(h, a, w); var k := layout[a];
      && OwnWords(h', a, k) == OwnWords(h, a, k) + [TypedWord(w, k.elem)]
      && At(h'.mem, a) <= At(h'.mem, a + 1)
  {
    hide WellTyped, Extent;
    Room(h, layout, a);
    PushedVector(h, a, layout[a].elem, w);
  }

  lemma PushedVector(h: Heap, a: nat, elem: nat, w: nat)
    requires a + 2 + At(h.mem, a) < |h.mem| && At(h.mem, a) < At(h.mem, a + 1)
    ensures var h' := Pushed(h, a, w); var k := Vector(elem);
      OwnWords(h', a, k) == OwnWords(h, a, k) + [TypedWord(w, elem)] && At(h'.mem, a) <= At(h'.mem, a + 1)
  {
    var h', k, n := Pushed(h, a, w), Vector(elem), At(h.mem, a);
    assert OwnTypes(h', a, k) == OwnTypes(h, a, k) + [elem];
    var ws, ws' := OwnWords(h, a, k), OwnWords(h', a, k);
    assert |ws| == n && |ws'| == n + 1;
    forall j | 0 <= j < n + 1 ensures ws'[j] == (ws + [TypedWord(w, elem)])[j] {}
  }

  /** Between two collections the program may push a word to a vector that has room. */
  lemma PushIsMutation(s: State, layout: Layout, a: nat, w: nat)
    requires Sound(s, layout) && HasRoom(s.h, layout, a) && WordOk(s.h, layout, TypedWord(w, layout[a].elem))
    ensures var s' := s.(h := Pushed(s.h, a, w)); Sound(s', layout) && Step(s, Mutate, s')
  {
    hide WellTyped, WordOk, Has, RootsOk, Extent, GetSize, Sound, StillOk;
    var s' := s.(h := Pushed(s.h, a, w));
    SoundParts(s, layout);
    PushedChanges(s.h, layout, a, w);
    forall b | b in layout ensures StillOk(s.h, s'.h, layout, b) { PushedStillOk(s.h, layout, a, w, b); }
    SameFunctions(s.h, s'.h, layout, layout);
    SameApart(s.h, s'.h, layout, layout);
    ChangedIsWellTyped(s.h, s'.h, layout, layout);
    SameRoots(s, s', layout, layout);
    ChangedIsSound(s, s', layout, layout);
  }

  // ---------------------------------------------------------------- making an object

  /** A block that no object uses yet. */
  ghost predicate Unused(s: State, layout: Layout, b: Region) {
    b in s.owned && forall a | a in layout :: Region(a, Extent(s.h.mem, a, layout[a])) != b
  }

  /** Memory is as it was outside of a block. */
  ghost predicate OnlyIn(mem: seq<nat>, mem': seq<nat>, b: Region) {
    |mem'| == |mem| && forall x: nat | x < |mem| && !Inside(x, b) :: mem'[x] == mem[x]
  }

  lemma UnusedApart(s: State, layout: Layout, b: Region, a: nat)
    requires Sound(s, layout) && Accounted(s) && Unused(s, layout, b) && a in layout
    ensures a != b.place && (a + Extent(s.h.mem, a, layout[a]) <= b.place || b.place + b.size <= a)
  {
    hide WellTyped, RootsOk, Has, Extent, Sorted, Distinct, Sum;
    assert Region(a, Extent(s.h.mem, a, layout[a])) in s.owned;
    ExtentPositive(s.h, layout, a);
    assert Apart(Region(a, Extent(s.h.mem, a, layout[a])), b);
  }

  lemma MadeHeader(s: State, s': State, layout: Layout, b: Region, a: nat)
    requires Sound(s, layout) && Accounted(s) && Unused(s, layout, b) && OnlyIn(s.h.mem, s'.h.mem, b) && a in layout
    ensures HeaderSame(s.h.mem, s'.h.mem, a, layout[a]) && SameFrom(s.h.mem, s'.h.mem, a, Extent(s.h.mem, a, layout[a]))
  {
    UnusedApart(s, layout, b, a);
    ExtentPositive(s.h, layout, a);
    hide Sound, Accounted, Unused;
  }

  /** Objects outside of the block have the words they had. */
  lemma MadeStillOk(s: State, s': State, layout: Layout, layout': Layout, b: Region, a: nat)
    requires Sound(s, layout) && Accounted(s) && Unused(s, layout, b) && OnlyIn(s.h.mem, s'.h.mem, b) && a in layout
    requires Changes(s.h, s'.h, layout, layout')
    ensures StillOk(s.h, s'.h, layout, a)
  {
    assert WellTyped(s.h, layout);
    hide WellTyped, OwnTypes, Offset, Extent, WordOk, OwnWords;
    MadeHeader(s, s', layout, b, a);
    MadeShape(s, s', layout, layout', b, a);
    hide Sound, Accounted, Unused, OnlyIn, Changes, HeaderSame;
    OwnWordsFit(s.h, layout, a);
    SameOwnWords(s.h, s'.h, a, layout[a]);
  }

  lemma MadeShape(s: State, s': State, layout: Layout, layout': Layout, b: Region, a: nat)
    requires Sound(s, layout) && Accounted(s) && Unused(s, layout, b) && OnlyIn(s.h.mem, s'.h.mem, b) && a in layout
    requires Changes(s.h, s'.h, layout, layout')
    ensures OwnTypes(s'.h, a, layout[a]) == OwnTypes(s.h, a, layout[a])
    ensures Offset(s'.h.mem, a, layout[a]) == Offset(s.h.mem, a, layout[a])
    ensures layout[a].Vector? ==> At(s'.h.mem, a) <= At(s'.h.mem, a + 1)
  {
    assert WellTyped(s.h, layout);
    MadeHeader(s, s', layout, b, a);
    ExtentPositive(s.h, layout, a);
    hide Sound, Accounted, Unused, OnlyIn;
    ShapeSame(s.h, s'.h, layout, layout', a);
    VectorSizes(s.h, layout, a);
    hide WellTyped, Changes, Components;
  }

  lemma SameOwnWords(h: Heap, h': Heap, a: nat, k: Kind)
    requires OwnTypes(h', a, k) == OwnTypes(h, a, k) && Offset(h'.mem, a, k) == Offset(h.mem, a, k)
    requires a + Offset(h.mem, a, k) + |OwnTypes(h, a, k)| <= a + Extent(h.mem, a, k) <= |h.mem|
    requires SameFrom(h.mem, h'.mem, a, Extent(h.mem, a, k))
    ensures OwnWords(h', a, k) == OwnWords(h, a, k)
  {
    hide OwnTypes, Offset, Extent;
    var at, n := a + Offset(h.mem, a, k), |OwnTypes(h, a, k)|;
    assert h'.mem[at..at + n] == h.mem[at..at + n];
  }

  lemma MadeChanges(s: State, s': State, layout: Layout, b: Region, k: Kind)
    requires Sound(s, layout) && Accounted(s) && Unused(s, layout, b) && OnlyIn(s.h.mem, s'.h.mem, b)
    requires s'.h.functions == s.h.functions && s'.h.vectorOfAsts == s.h.vectorOfAsts
    ensures b.place !in layout && Changes(s.h, s'.h, layout, layout[b.place := k])
  {
    hide Sound, Accounted, Unused, HeaderSame, SameFrom;
    forall a | a in layout ensures HeaderSame(s.h.mem, s'.h.mem, a, layout[a]) && a != b.place {
      MadeHeader(s, s', layout, b, a);
      UnusedApart(s, layout, b, a);
    }
  }

  lemma MadeApart(s: State, s': State, layout: Layout, b: Region, k: Kind)
    requires Sound(s, layout) && Accounted(s) && Unused(s, layout, b)
    requires Changes(s.h, s'.h, layout, layout[b.place := k]) && Extent(s'.h.mem, b.place, k) == b.size
    ensures var layout' := layout[b.place := k];
      forall a, c | a in layout' && c in layout' && a < c :: a + Extent(s'.h.mem, a, layout'[a]) <= c
  {
    var layout' := layout[b.place := k];
    assert WellTyped(s.h, layout);
    hide WellTyped, Changes, Extent, Unused, Sound, Accounted;
    SameApart(s.h, s'.h, layout, layout');
    forall a, c | a in layout' && c in layout' && a < c ensures a + Extent(s'.h.mem, a, layout'[a]) <= c {
      if a == b.place {
        UnusedApart(s, layout, b, c);
      } else if c == b.place {
        UnusedApart(s, layout, b, a);
        ShapeSame(s.h, s'.h, layout, layout', a);
      }
    }
  }

  /** Between two collections the program may make an object, of any kind, in a block that was
      allocated and is not in use. */
  lemma MakeIsMutation(s: State, s': State, layout: Layout, b: Region, k: Kind)
    requires Sound(s, layout) && Accounted(s) && Unused(s, layout, b) && OnlyIn(s.h.mem, s'.h.mem, b)
    requires s' == s.(h := s.h.(mem := s'.h.mem)) && Extent(s'.h.mem, b.place, k) == b.size
    requires ObjectOk(s'.h, layout[b.place := k], b.place, k)
    ensures Sound(s', layout[b.place := k]) && Step(s, Mutate, s')
  {
    hide WellTyped, ObjectOk, Has, RootsOk, Extent, GetSize, Unused, Accounted, Changes, StillOk, Sound;
    var layout' := layout[b.place := k];
    SoundParts(s, layout);
    MadeChanges(s, s', layout, b, k);
    forall a | a in layout ensures StillOk(s.h, s'.h, layout, a) { MadeStillOk(s, s', layout, layout', b, a); }
    MadeApart(s, s', layout, b, k);
    SameFunctions(s.h, s'.h, layout, layout');
    ChangedIsWellTyped(s.h, s'.h, layout, layout');
    SameRoots(s, s', layout, layout');
    assert Region(b.place, Extent(s'.h.mem, b.place, k)) in s'.owned by { UnusedOwned(s, layout, b); }
    ChangedIsSound(s, s', layout, layout');
  }

  lemma SoundParts(s: State, layout: Layout)
    requires Sound(s, layout)
    ensures WellTyped(s.h, layout) && RootsOk(s.h, layout, s.typeRoots, s.eventRoots) && Rooted(s)
    ensures forall w | w in s.h.functions :: Has(s.flags, s.h.functions[w].slot)
  {
  }

  lemma UnusedOwned(s: State, layout: Layout, b: Region)
    requires Unused(s, layout, b)
    ensures b in s.owned
  {
  }

  // ---------------------------------------------------------------- functions and roots

  /** The new function has a slot of its own. */
  ghost predicate NewFunction(s: State, layout: Layout, flags: seq<bv64>, w: nat, f: Function) {
    && w !in s.h.functions && Has(flags, f.slot) && WordsOk(s.h, layout, FunctionWords(f))
    && forall v | v in s.h.functions :: Has(flags, s.h.functions[v].slot) && s.h.functions[v].slot != f.slot
  }

  /** Between two collections the program may compile a function, into a slot that is free. */
  lemma CompileIsMutation(s: State, layout: Layout, flags: seq<bv64>, w: nat, f: Function)
    requires Sound(s, layout) && NewFunction(s, layout, flags, w, f)
    ensures var s' := s.(h := s.h.(functions := s.h.functions[w := f]), flags := flags);
      Sound(s', layout) && Step(s, Mutate, s')
  {
    hide WellTyped, RootsOk, Extent, GetSize, Sound, StillOk, Has, WordsOk;
    var s' := s.(h := s.h.(functions := s.h.functions[w := f]), flags := flags);
    SoundParts(s, layout);
    SameMemory(s.h, s'.h, layout);
    SameApart(s.h, s'.h, layout, layout);
    forall v | v in s'.h.functions ensures WordsOk(s'.h, layout, FunctionWords(s'.h.functions[v])) {
      FunctionParts(s.h, layout);
      WordsSame(s.h, s'.h, layout, layout, FunctionWords(s'.h.functions[v]));
    }
    FunctionParts(s.h, layout);
    ChangedIsWellTyped(s.h, s'.h, layout, layout);
    SameRoots(s, s', layout, layout);
    ChangedIsSound(s, s', layout, layout);
  }

  lemma FunctionParts(h: Heap, layout: Layout)
    requires WellTyped(h, layout)
    ensures forall w | w in h.functions :: WordsOk(h, layout, FunctionWords(h.functions[w]))
    ensures forall w, v | w in h.functions && v in h.functions && w != v :: h.functions[w].slot != h.functions[v].slot
  {
  }

  lemma SameMemory(h: Heap, h': Heap, layout: Layout)
    requires WellTyped(h, layout) && h'.mem == h.mem && h'.vectorOfAsts == h.vectorOfAsts
    requires forall w | w in h.functions :: w in h'.functions
    ensures Changes(h, h', layout, layout) && AllStillOk(h, h', layout)
  {
    hide WellTyped, OwnWords, WordsOk, Extent;
    forall a | a in layout ensures StillOk(h, h', layout, a) {
      SameHeapWords(h, h', a, layout[a]);
      OwnWordsFit(h, layout, a);
      VectorSizes(h, layout, a);
    }
  }

  lemma SameHeapWords(h: Heap, h': Heap, a: nat, k: Kind)
    requires h'.mem == h.mem && h'.vectorOfAsts == h.vectorOfAsts
    ensures OwnWords(h', a, k) == OwnWords(h, a, k)
  {
  }

  /** Between two collections a type or a function may be entered as a root. */
  lemma RootIsMutation(s: State, layout: Layout, typeRoot: nat, eventRoot: nat)
    requires Sound(s, layout)
    requires WordOk(s.h, layout, TypedWord(typeRoot, TYPE_POINTER))
    requires WordOk(s.h, layout, TypedWord(eventRoot, FUNCTION_POINTER))
    ensures var s' := s.(typeRoots := s.typeRoots + [typeRoot], eventRoots := s.eventRoots + [eventRoot]);
      Sound(s', layout) && Step(s, Mutate, s')
  {
    hide WellTyped, Extent, GetSize, Has, WordOk;
    var s' := s.(typeRoots := s.typeRoots + [typeRoot], eventRoots := s.eventRoots + [eventRoot]);
    var ws, ws' := RootWords(s.typeRoots, s.eventRoots), RootWords(s'.typeRoots, s'.eventRoots);
    var n := |s.typeRoots|;
    forall i | 0 <= i < |ws'| ensures WordOk(s.h, layout, ws'[i]) {
      if i < n { assert ws'[i] == ws[i]; }
      else if n < i < |ws'| - 1 { assert ws'[i] == ws[i - 1]; }
    }
  }
}
