/**
 What a collection leaves behind is again a well typed heap: whatever the remaining objects
 lead to, and every type they depend on, remains too, word for word.
 */
module Retention {
  import opened FunctionPool
  import opened Heap
  import opened Tags
  import opened Marking

  /** A type that was kept, or that needs no memory. */
  ghost predicate Stays(layout: Layout, t: nat) {
    t > NEVER_REACHED ==> t in layout
  }

  ghost predicate WordStays(h: Heap, h': Heap, layout': Layout, w: TypedWord) {
    && Stays(layout', w.ty)
    && forall i | i in Target(h.mem, w) :: i in Items(h', layout')
  }

  ghost predicate WordsStay(h: Heap, h': Heap, layout': Layout, ws: seq<TypedWord>) {
    forall k | 0 <= k < |ws| :: WordStays(h, h', layout', ws[k])
  }

  ghost predicate KindStays(layout': Layout, k: Kind) {
    && (k.Pointee? ==> Stays(layout', k.t))
    && (k.Vector? ==> Stays(layout', k.elem))
  }

  ghost predicate SameFrom(mem: seq<nat>, mem': seq<nat>, a: nat, n: nat) {
    |mem'| == |mem| && forall x | a <= x < a + n && x < |mem| :: mem'[x] == mem[x]
  }

  /** h' keeps the objects of layout', closed under all that they lead to. */
  ghost predicate Preserved(h: Heap, h': Heap, layout: Layout, layout': Layout) {
    && |h'.mem| == |h.mem| && h'.vectorOfAsts == h.vectorOfAsts && Stays(layout', h.vectorOfAsts)
    && (forall a | a in layout' :: a in layout && layout'[a] == layout[a])
    && (forall w | w in h'.functions :: w in h.functions && h'.functions[w] == h.functions[w])
    && (forall a | a in layout' :: SameFrom(h.mem, h'.mem, a, Extent(h.mem, a, layout'[a])))
    && (forall a | a in layout' :: KindStays(layout', layout'[a]))
    && (forall i | i in Items(h', layout') :: WordsStay(h, h', layout', ItemWords(h, layout, i)))
  }

  // ---------------------------------------------------------------- one type

  lemma SameAt(h: Heap, h': Heap, layout: Layout, layout': Layout, a: nat, x: nat)
    requires Preserved(h, h', layout, layout') && a in layout' && a <= x < a + Extent(h.mem, a, layout'[a])
    ensures At(h'.mem, x) == At(h.mem, x)
  {
    assert SameFrom(h.mem, h'.mem, a, Extent(h.mem, a, layout'[a]));
    hide Extent;
  }

  lemma SameType(h: Heap, h': Heap, layout: Layout, layout': Layout, t: nat)
    requires Preserved(h, h', layout, layout') && Stays(layout', t) && (t > NEVER_REACHED ==> layout[t] == Type)
    requires t != 0
    requires WellTyped(h, layout)
    ensures Ver(h'.mem, t) == Ver(h.mem, t) && GetSize(h'.mem, t) == GetSize(h.mem, t)
    ensures Components(h'.mem, t) == Components(h.mem, t)
    ensures t > NEVER_REACHED ==> Subtypes(h'.mem, t) == Subtypes(h.mem, t)
    ensures HasFields(Ver(h.mem, t)) && t > NEVER_REACHED ==> Field(h'.mem, t, 0) == Field(h.mem, t, 0)
  {
    if t > NEVER_REACHED {
      assert HasFields(At(h.mem, t)) && t + Extent(h.mem, t, Type) <= |h.mem| by {
        assert ObjectOk(h, layout, t, Type);
      }
      assert layout'[t] == Type && SameFrom(h.mem, h'.mem, t, Extent(h.mem, t, Type));
      hide *;
      SameTypeWords(h.mem, h'.mem, t);
    }
  }

  lemma SameTypeWords(mem: seq<nat>, mem': seq<nat>, t: nat)
    requires t > NEVER_REACHED && HasFields(At(mem, t)) && t + Extent(mem, t, Type) <= |mem|
    requires SameFrom(mem, mem', t, Extent(mem, t, Type))
    ensures Ver(mem', t) == Ver(mem, t) && GetSize(mem', t) == GetSize(mem, t)
    ensures Components(mem', t) == Components(mem, t) && Subtypes(mem', t) == Subtypes(mem, t)
    ensures Field(mem', t, 0) == Field(mem, t, 0)
  {
    assert mem'[t] == mem[t] && mem'[t + 1] == mem[t + 1];
  }

  lemma SameKind(h: Heap, h': Heap, layout: Layout, layout': Layout, a: nat)
    requires Preserved(h, h', layout, layout') && a in layout'
    ensures a in layout && layout'[a] == layout[a]
  {
  }

  /** The fields of a type that stays, stay. */
  lemma SubtypeStays(h: Heap, h': Heap, layout: Layout, layout': Layout, t: nat, c: nat)
    requires Preserved(h, h', layout, layout') && WellTyped(h, layout) && t in layout' && layout[t] == Type
    requires c in Subtypes(h.mem, t) && (c > NEVER_REACHED ==> c in layout && layout[c] == Type)
    ensures Stays(layout', c)
  {
    if c > NEVER_REACHED {
      var ws := ItemWords(h, layout, Obj(t));
      assert Obj(t) in Items(h', layout');
      SameKind(h, h', layout, layout', t);
      assert WordsStay(h, h', layout', ws);
      assert ObjectOk(h, layout, c, Type);
      hide Preserved, WellTyped, WordsOk, TypeFields;
      var types := Subtypes(h.mem, t);
      var k :| 0 <= k < |types| && types[k] == c;
      assert ws[k] == TypedWord(c, TYPE_POINTER);
      assert WordStays(h, h', layout', ws[k]);
      assert Obj(c) in Target(h.mem, ws[k]);
    }
  }

  lemma SimpleStays(h: Heap, h': Heap, layout: Layout, layout': Layout, t: nat)
    requires Preserved(h, h', layout, layout') && WellTyped(h, layout)
    requires SimpleType(h.mem, layout, t) && Stays(layout', t)
    ensures SimpleType(h'.mem, layout', t)
  {
    SameType(h, h', layout, layout', t);
    if t > NEVER_REACHED { SameKind(h, h', layout, layout', t); }
    hide Preserved, WellTyped;
  }

  lemma TypeStays(h: Heap, h': Heap, layout: Layout, layout': Layout, t: nat)
    requires Preserved(h, h', layout, layout') && WellTyped(h, layout)
    requires TypeOk(h.mem, layout, t) && Stays(layout', t)
    ensures TypeOk(h'.mem, layout', t)
  {
    SameType(h, h', layout, layout', t);
    if t > NEVER_REACHED { SameKind(h, h', layout, layout', t); }
    hide Preserved, WellTyped;
    forall c | c in Components(h'.mem, t) ensures SimpleType(h'.mem, layout', c) {
      assert SimpleType(h.mem, layout, c);
      if Ver(h.mem, t) == CON_VEC {
        SubtypeStays(h, h', layout, layout', t, c);
      }
      SimpleStays(h, h', layout, layout', c);
    }
  }

  // ---------------------------------------------------------------- one word

  lemma WordOkStays(h: Heap, h': Heap, layout: Layout, layout': Layout, w: TypedWord)
    requires Preserved(h, h', layout, layout') && WellTyped(h, layout)
    requires WordOk(h, layout, w) && WordStays(h, h', layout', w)
    ensures WordOk(h', layout', w)
    ensures Target(h'.mem, w) == Target(h.mem, w)
  {
    hide Preserved, WellTyped, SimpleType, ObjectOk;
    var tag := Ver(h.mem, w.ty);
    SimpleKind(h.mem, layout, w.ty);
    SimpleStays(h, h', layout, layout', w.ty);
    SameType(h, h', layout, layout', w.ty);
    if tag == FUNCTION_POINTER {
      if w.value != 0 { assert Func(w.value) in Target(h.mem, w); }
    } else if tag == TYPE_POINTER {
      if w.value > NEVER_REACHED { TypeTarget(h, h', layout, layout', w); }
    } else if tag == FULL_POINTER || tag == VECTOR || (w.value != 0 && (tag == DYNAMIC || tag == AST_POINTER)) {
      assert Obj(w.value) in Target(h.mem, w);
      SameKind(h, h', layout, layout', w.value);
    }
  }

  lemma SimpleKind(mem: seq<nat>, layout: Layout, t: nat)
    requires SimpleType(mem, layout, t)
    ensures t > NEVER_REACHED ==> t in layout && layout[t] == Type
    ensures HasFields(Ver(mem, t)) ==> t > NEVER_REACHED
  {
  }

  lemma TypeTarget(h: Heap, h': Heap, layout: Layout, layout': Layout, w: TypedWord)
    requires Preserved(h, h', layout, layout') && WellTyped(h, layout) && Ver(h.mem, w.ty) == TYPE_POINTER
    requires WordOk(h, layout, w) && WordStays(h, h', layout', w) && w.value > NEVER_REACHED
    ensures w.value in layout' && layout'[w.value] == Type && Ver(h'.mem, w.value) == Ver(h.mem, w.value)
  {
    hide Preserved, SimpleType, WordsOk;
    assert ObjectOk(h, layout, w.value, Type);
    assert Obj(w.value) in Target(h.mem, w);
    SameType(h, h', layout, layout', w.value);
    SameKind(h, h', layout, layout', w.value);
  }

  lemma WordsOkStay(h: Heap, h': Heap, layout: Layout, layout': Layout, ws: seq<TypedWord>)
    requires Preserved(h, h', layout, layout') && WellTyped(h, layout)
    requires WordsOk(h, layout, ws) && WordsStay(h, h', layout', ws)
    ensures WordsOk(h', layout', ws)
  {
    hide Preserved, WellTyped, WordOk, WordStays;
    forall k | 0 <= k < |ws| ensures WordOk(h', layout', ws[k]) {
      WordOkStays(h, h', layout, layout', ws[k]);
    }
  }

  // ---------------------------------------------------------------- one object

  lemma SameSlice(mem: seq<nat>, mem': seq<nat>, a: nat, n: nat)
    requires SameFrom(mem, mem', a, n)
    ensures Slice(mem', a, n) == Slice(mem, a, n)
  {
  }

  lemma SameValueWords(h: Heap, h': Heap, layout: Layout, layout': Layout, a: nat, t: nat)
    requires Preserved(h, h', layout, layout') && WellTyped(h, layout)
    requires TypeOk(h.mem, layout, t) && Stays(layout', t) && SameFrom(h.mem, h'.mem, a, GetSize(h.mem, t))
    ensures ValueWords(h'.mem, a, t) == ValueWords(h.mem, a, t)
    ensures GetSize(h'.mem, t) == GetSize(h.mem, t)
  {
    hide Preserved, WellTyped;
    SameType(h, h', layout, layout', t);
    ComponentsSize(h, layout, t);
    var n := |Components(h.mem, t)|;
    if a + n <= |h.mem| { assert h'.mem[a..a + n] == h.mem[a..a + n]; }
  }

  lemma DynamicStays(h: Heap, h': Heap, layout: Layout, layout': Layout, a: nat)
    requires Preserved(h, h', layout, layout') && WellTyped(h, layout) && a in layout' && layout[a] == Dynamic
    ensures Stays(layout', At(h.mem, a)) && TypeOk(h.mem, layout, At(h.mem, a))
  {
    var t := At(h.mem, a);
    DynamicWords(h, layout, a);
    SameKind(h, h', layout, layout', a);
    assert Obj(a) in Items(h', layout');
    var ws := ItemWords(h, layout, Obj(a));
    assert WordsStay(h, h', layout', ws);
    ObjectFacts(h, layout, a);
    hide Preserved, WellTyped, TypeOk, SimpleType;
    assert ws[0] == TypedWord(t, TYPE_POINTER);
    assert WordStays(h, h', layout', ws[0]);
    if t > NEVER_REACHED { TypeTarget(h, h', layout, layout', ws[0]); }
  }

  lemma SameVector(h: Heap, h': Heap, layout: Layout, layout': Layout, a: nat)
    requires Preserved(h, h', layout, layout') && WellTyped(h, layout) && a in layout' && layout[a].Vector?
    ensures At(h'.mem, a) == At(h.mem, a) && At(h'.mem, a + 1) == At(h.mem, a + 1)
    ensures VectorWords(h'.mem, a) == VectorWords(h.mem, a)
  {
    SameKind(h, h', layout, layout', a);
    assert At(h.mem, a) <= At(h.mem, a + 1) && a + 2 + At(h.mem, a + 1) <= |h.mem| by {
      assert ObjectOk(h, layout, a, layout[a]);
    }
    assert SameFrom(h.mem, h'.mem, a, 2 + At(h.mem, a + 1));
    hide Preserved, WellTyped;
    SameSlice(h.mem, h'.mem, a + 2, At(h.mem, a));
  }

  /** The vector of a basic block stays with it. */
  lemma BlockVectorStays(h: Heap, h': Heap, layout: Layout, layout': Layout, a: nat)
    requires Preserved(h, h', layout, layout') && WellTyped(h, layout) && a in layout' && layout[a] == Ast
    requires At(h.mem, a) == BASIC_BLOCK
    ensures var vec := BlockVector(h.mem, a); vec in layout' && vec in layout && layout[vec].Vector?
  {
    var vec := BlockVector(h.mem, a);
    var ws := AstWords(h, a);
    assert ws[0] == TypedWord(vec, h.vectorOfAsts);
    SameKind(h, h', layout, layout', a);
    assert WordsStay(h, h', layout', ws) by { ObjectWordsStay(h, h', layout, layout', a); }
    assert WordsOk(h, layout, ws) by { ObjectFacts(h, layout, a); }
    assert Ver(h.mem, h.vectorOfAsts) == VECTOR;
    hide Preserved, WellTyped, SimpleType, AstWords;
    assert WordStays(h, h', layout', ws[0]) && WordOk(h, layout, ws[0]);
    assert Obj(vec) in Target(h.mem, ws[0]);
  }

  lemma AstSame(h: Heap, h': Heap, layout: Layout, layout': Layout, a: nat)
    requires Preserved(h, h', layout, layout') && WellTyped(h, layout) && a in layout' && layout[a] == Ast
    ensures a in layout && a + AstSize(At(h.mem, a)) + 1 <= |h.mem| == |h'.mem|
    ensures SameFrom(h.mem, h'.mem, a, AstSize(At(h.mem, a)) + 1) && h'.vectorOfAsts == h.vectorOfAsts
  {
    SameKind(h, h', layout, layout', a);
    ObjectFacts(h, layout, a);
    hide WellTyped;
  }

  lemma SameAst(h: Heap, h': Heap, layout: Layout, layout': Layout, a: nat)
    requires Preserved(h, h', layout, layout') && WellTyped(h, layout) && a in layout' && layout[a] == Ast
    ensures At(h'.mem, a) == At(h.mem, a) && AstWords(h', a) == AstWords(h, a)
  {
    hide Preserved, WellTyped, VectorWords, Slice;
    var tag := At(h.mem, a);
    AstSame(h, h', layout, layout', a);
    assert tag == BASIC_BLOCK ==>
      VectorWords(h'.mem, BlockVector(h.mem, a)) == VectorWords(h.mem, BlockVector(h.mem, a)) by {
      if tag == BASIC_BLOCK {
        BlockVectorStays(h, h', layout, layout', a);
        SameVector(h, h', layout, layout', BlockVector(h.mem, a));
      }
    }
    if tag != IMV && tag != BASIC_BLOCK { SameSlice(h.mem, h'.mem, a + 1, AstSize(tag)); }
  }

  ghost predicate SameAs(h: Heap, h': Heap, a: nat, k: Kind) {
    && Extent(h'.mem, a, k) == Extent(h.mem, a, k)
    && ObjectWords(h', a, k) == ObjectWords(h, a, k)
    && (!k.Pointee? ==> At(h'.mem, a) == At(h.mem, a))
    && (k.Vector? || k.Type? ==> At(h'.mem, a + 1) == At(h.mem, a + 1))
  }

  lemma SamePointee(h: Heap, h': Heap, layout: Layout, layout': Layout, a: nat, t: nat)
    requires Preserved(h, h', layout, layout') && WellTyped(h, layout) && a in layout' && layout[a] == Pointee(t)
    ensures SameAs(h, h', a, Pointee(t))
  {
    SameKind(h, h', layout, layout', a);
    assert SameFrom(h.mem, h'.mem, a, GetSize(h.mem, t));
    assert Stays(layout', t) by { KindsStay(h, h', layout, layout', a); }
    assert TypeOk(h.mem, layout, t) by { ObjectFacts(h, layout, a); }
    hide Preserved, WellTyped, TypeOk, GetSize, ValueWords;
    SameValueWords(h, h', layout, layout', a, t);
  }

  lemma SameDynamic(h: Heap, h': Heap, layout: Layout, layout': Layout, a: nat)
    requires Preserved(h, h', layout, layout') && WellTyped(h, layout) && a in layout' && layout[a] == Dynamic
    ensures SameAs(h, h', a, Dynamic)
  {
    hide Preserved, WellTyped, TypeOk, GetSize, ValueWords, Stays, SameFrom;
    var t := At(h.mem, a);
    DynamicStays(h, h', layout, layout', a);
    DynamicSame(h, h', layout, layout', a, t);
    SameValueWords(h, h', layout, layout', a + 1, t);
  }

  lemma DynamicSame(h: Heap, h': Heap, layout: Layout, layout': Layout, a: nat, t: nat)
    requires Preserved(h, h', layout, layout') && WellTyped(h, layout) && a in layout' && layout[a] == Dynamic
    requires t == At(h.mem, a)
    ensures At(h'.mem, a) == t && SameFrom(h.mem, h'.mem, a + 1, GetSize(h.mem, t))
  {
    SameKind(h, h', layout, layout', a);
    var n := GetSize(h.mem, t);
    assert SameFrom(h.mem, h'.mem, a, n + 1);
    assert a + Extent(h.mem, a, Dynamic) <= |h.mem| by { ObjectFacts(h, layout, a); }
    hide Preserved, WellTyped, GetSize;
  }

  lemma SameObject(h: Heap, h': Heap, layout: Layout, layout': Layout, a: nat)
    requires Preserved(h, h', layout, layout') && WellTyped(h, layout) && a in layout'
    ensures a in layout && layout'[a] == layout[a]
    ensures SameAs(h, h', a, layout[a])
  {
    SameKind(h, h', layout, layout', a);
    hide Preserved, WellTyped, Slice, Same, VectorWords, AstWords, Subtypes, AstSize, GetSize, ValueWords;
    match layout[a] {
      case Pointee(t) => SamePointee(h, h', layout, layout', a, t);
      case Dynamic => SameDynamic(h, h', layout, layout', a);
      case Vector(elem) => SameVector(h, h', layout, layout', a);
      case Ast => SameAst(h, h', layout, layout', a);
      case Type => SameTypeObject(h, h', layout, layout', a);
    }
  }

  lemma SameTypeObject(h: Heap, h': Heap, layout: Layout, layout': Layout, a: nat)
    requires Preserved(h, h', layout, layout') && WellTyped(h, layout) && a in layout' && layout[a] == Type
    ensures At(h'.mem, a) == At(h.mem, a) && At(h'.mem, a + 1) == At(h.mem, a + 1)
    ensures Subtypes(h'.mem, a) == Subtypes(h.mem, a)
  {
    SameKind(h, h', layout, layout', a);
    assert POOL_START <= a && a + Extent(h.mem, a, Type) <= |h.mem| by { assert ObjectOk(h, layout, a, Type); }
    SameAt(h, h', layout, layout', a, a);
    SameAt(h, h', layout, layout', a, a + 1);
    hide Preserved, WellTyped, Components;
    SameType(h, h', layout, layout', a);
  }

  lemma ObjectStays(h: Heap, h': Heap, layout: Layout, layout': Layout, a: nat)
    requires Preserved(h, h', layout, layout') && WellTyped(h, layout) && a in layout'
    ensures ObjectOk(h', layout', a, layout'[a])
  {
    assert |h'.mem| == |h.mem|;
    hide WellTyped, Preserved, TypeOk, WordsOk, WordsStay, Extent, ObjectWords, Components, Subtypes;
    SameObject(h, h', layout, layout', a);
    var k := layout[a];
    assert ObjectOk(h, layout, a, k) by { AllOk(h, layout, a); }
    assert WordsStay(h, h', layout', ObjectWords(h, a, k)) by { ObjectWordsStay(h, h', layout, layout', a); }
    WordsOkStay(h, h', layout, layout', ObjectWords(h, a, k));
    if k.Pointee? {
      assert Stays(layout', k.t) by { assert KindStays(layout', k) by { KindsStay(h, h', layout, layout', a); } }
      TypeStays(h, h', layout, layout', k.t);
    } else if k.Dynamic? {
      DynamicStays(h, h', layout, layout', a);
      TypeStays(h, h', layout, layout', At(h.mem, a));
    } else if k.Type? {
      TypeFieldsStay(h, h', layout, layout', a);
    }
  }

  lemma AllOk(h: Heap, layout: Layout, a: nat)
    requires WellTyped(h, layout) && a in layout
    ensures ObjectOk(h, layout, a, layout[a])
  {
  }

  lemma KindsStay(h: Heap, h': Heap, layout: Layout, layout': Layout, a: nat)
    requires Preserved(h, h', layout, layout') && a in layout'
    ensures KindStays(layout', layout'[a])
  {
  }

  lemma ObjectWordsStay(h: Heap, h': Heap, layout: Layout, layout': Layout, a: nat)
    requires Preserved(h, h', layout, layout') && a in layout'
    ensures WordsStay(h, h', layout', ObjectWords(h, a, layout'[a]))
  {
    assert Obj(a) in Items(h', layout');
  }

  lemma TypeFieldsStay(h: Heap, h': Heap, layout: Layout, layout': Layout, a: nat)
    requires Preserved(h, h', layout, layout') && WellTyped(h, layout) && a in layout' && layout[a] == Type
    ensures TypeFields(h'.mem, layout', a)
  {
    SameTypeObject(h, h', layout, layout', a);
    assert TypeFields(h.mem, layout, a) && POOL_START <= a by { assert ObjectOk(h, layout, a, Type); }
    hide WellTyped, Preserved, TypeOk;
    if At(h.mem, a) == CON_VEC {
      TypeStays(h, h', layout, layout', a);
    } else {
      var c := Field(h.mem, a, 0);
      assert c in Subtypes(h.mem, a);
      assert c > NEVER_REACHED ==> c in layout && layout[c] == Type by { TypeIsType(h.mem, layout, c); }
      SubtypeStays(h, h', layout, layout', a, c);
      TypeStays(h, h', layout, layout', c);
    }
  }

  lemma TypeIsType(mem: seq<nat>, layout: Layout, t: nat)
    requires TypeOk(mem, layout, t)
    ensures t > NEVER_REACHED ==> t in layout && layout[t] == Type
  {
  }

  /** The remaining heap is well typed. */
  lemma PreservedIsWellTyped(h: Heap, h': Heap, layout: Layout, layout': Layout)
    requires Preserved(h, h', layout, layout') && WellTyped(h, layout)
    ensures WellTyped(h', layout')
  {
    SimpleStays(h, h', layout, layout', h.vectorOfAsts);
    SimpleKind(h.mem, layout, h.vectorOfAsts);
    SameType(h, h', layout, layout', h.vectorOfAsts);
    forall a | a in layout'
      ensures a in layout && layout'[a] == layout[a] && Extent(h'.mem, a, layout'[a]) == Extent(h.mem, a, layout[a])
      ensures ObjectOk(h', layout', a, layout'[a])
    {
      hide WellTyped, Preserved;
      SameObject(h, h', layout, layout', a);
      ObjectStays(h, h', layout, layout', a);
    }
    forall w | w in h'.functions ensures WordsOk(h', layout', FunctionWords(h'.functions[w])) {
      assert Func(w) in Items(h', layout');
      var ws := FunctionWords(h.functions[w]);
      assert WordsOk(h, layout, ws) && WordsStay(h, h', layout', ws);
      hide WellTyped, WordsOk, WordsStay;
      WordsOkStay(h, h', layout, layout', ws);
    }
    hide ObjectOk, WordsOk, SimpleType, Extent, KindStays, WordsStay, SameFrom;
  }
}
