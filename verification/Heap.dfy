/**
 The garbage collected heap, word by word: what its objects are, which words of an object
 are typed pointers, and which objects a root reaches. An address is a word index; the pool
 starts above all small type tags.
 */
module Heap {
  import opened FunctionPool
  import opened Tags

  const POOL_START: nat := 16

  /** How many fields of each AST are AST pointers, by tag. */
  const AST_FIELDS: seq<nat> := [
    0, 0, 0, 1, 1, 0, 3, 2, 2, 2, 2, 2, 2, 2, 2, 2, 2, 1, 1, 2, 1, 1, 1, 2, 1, 1, 1, 2, 1, 2, 2, 2, 3, 10,
    2, 1, 1, 1, 2, 1, 2, 1, 2, 2, 0]

  datatype Function = Function(slot: Slot, ast: nat, returnType: nat)

  /** The words of memory, and the functions by the words that point to them. */
  datatype Heap = Heap(mem: seq<nat>, functions: map<nat, Function>, vectorOfAsts: nat)

  /** What an address was allocated for. */
  datatype Kind = Pointee(t: nat) | Dynamic | Vector(elem: nat) | Ast | Type

  type Layout = map<nat, Kind>

  datatype Item = Obj(addr: nat) | Func(word: nat)

  datatype TypedWord = TypedWord(value: nat, ty: nat)

  function At(mem: seq<nat>, a: nat): nat {
    if a < |mem| then mem[a] else 0
  }

  // ---------------------------------------------------------------- types in memory

  function Ver(mem: seq<nat>, t: nat): nat {
    if t > NEVER_REACHED then At(mem, t) else t
  }

  function Field(mem: seq<nat>, t: nat, i: nat): nat {
    At(mem, t + 1 + i)
  }

  function GetSize(mem: seq<nat>, t: nat): nat {
    if t == 0 then 0
    else if Ver(mem, t) == CON_VEC then Field(mem, t, 0)
    else if Ver(mem, t) >= DOES_NOT_RETURN then 0
    else 1
  }

  /** The types of the words of an object of type t. */
  function Components(mem: seq<nat>, t: nat): seq<nat> {
    if Ver(mem, t) == CON_VEC then seq(Field(mem, t, 0), i requires 0 <= i => Field(mem, t, i + 1)) else [t]
  }

  /** The types that a type's fields point to. */
  function Subtypes(mem: seq<nat>, t: nat): seq<nat> {
    if Ver(mem, t) == CON_VEC then Components(mem, t) else [Field(mem, t, 0)]
  }

  function Typed(words: seq<nat>, types: seq<nat>): (r: seq<TypedWord>)
    requires |words| == |types|
    ensures |r| == |words|
  {
    seq(|words|, i requires 0 <= i < |words| => TypedWord(words[i], types[i]))
  }

  function Same(words: seq<nat>, t: nat): (r: seq<TypedWord>)
    ensures |r| == |words|
  {
    seq(|words|, i requires 0 <= i < |words| => TypedWord(words[i], t))
  }

  /** n words from a on; short when they run past the end of memory. */
  function Slice(mem: seq<nat>, a: nat, n: nat): (s: seq<nat>)
    ensures a + n <= |mem| ==> |s| == n
  {
    if a + n <= |mem| then mem[a..a + n] else []
  }

  // ---------------------------------------------------------------- objects

  function AstSize(tag: nat): nat {
    if tag == IMV || tag == BASIC_BLOCK then 1
    else if tag < |AST_FIELDS| then AST_FIELDS[tag]
    else 0
  }

  /** The number of words of an object. */
  function Extent(mem: seq<nat>, a: nat, k: Kind): nat {
    match k
    case Pointee(t) => GetSize(mem, t)
    case Dynamic => GetSize(mem, At(mem, a)) + 1
    case Vector(_) => 2 + At(mem, a + 1)
    case Ast => AstSize(At(mem, a)) + 1
    case Type => if At(mem, a) == CON_VEC then At(mem, a + 1) + 2 else 2
  }

  /** The number of words the collector records for it: for the target of a pointer it takes
      the size of the pointer. */
  function Recorded(mem: seq<nat>, a: nat, k: Kind): nat {
    if k.Pointee? then 1 else Extent(mem, a, k)
  }

  /** The vector of a basic block. */
  function BlockVector(mem: seq<nat>, a: nat): nat {
    At(mem, a + 1)
  }

  function VectorWords(mem: seq<nat>, a: nat): seq<nat> {
    Slice(mem, a + 2, At(mem, a))
  }

  function AstWords(h: Heap, a: nat): seq<TypedWord> {
    var tag := At(h.mem, a);
    if tag == IMV then [TypedWord(At(h.mem, a + 1), DYNAMIC)]
    else if tag == BASIC_BLOCK then
      [TypedWord(BlockVector(h.mem, a), h.vectorOfAsts)] + Same(VectorWords(h.mem, BlockVector(h.mem, a)), AST_POINTER)
    else Same(Slice(h.mem, a + 1, AstSize(tag)), AST_POINTER)
  }

  /** The typed words the collector looks through in an object. */
  function ObjectWords(h: Heap, a: nat, k: Kind): seq<TypedWord> {
    match k
    case Pointee(t) => ValueWords(h.mem, a, t)
    case Dynamic => [TypedWord(At(h.mem, a), TYPE_POINTER)] + ValueWords(h.mem, a + 1, At(h.mem, a))
    case Vector(elem) => Same(VectorWords(h.mem, a), elem)
    case Ast => AstWords(h, a)
    case Type => Same(Subtypes(h.mem, a), TYPE_POINTER)
  }

  function ValueWords(mem: seq<nat>, a: nat, t: nat): seq<TypedWord> {
    var types := Components(mem, t);
    if a + |types| <= |mem| then Typed(mem[a..a + |types|], types) else []
  }

  function FunctionWords(f: Function): seq<TypedWord> {
    [TypedWord(f.ast, AST_POINTER), TypedWord(f.returnType, TYPE_POINTER)]
  }

  function ItemWords(h: Heap, layout: Layout, i: Item): seq<TypedWord> {
    match i
    case Obj(a) => if a in layout then ObjectWords(h, a, layout[a]) else []
    case Func(w) => if w in h.functions then FunctionWords(h.functions[w]) else []
  }

  // ---------------------------------------------------------------- edges

  /** What a word of a type points to, if anything. */
  function Target(mem: seq<nat>, w: TypedWord): set<Item> {
    var tag := Ver(mem, w.ty);
    if tag == FULL_POINTER || tag == VECTOR then {Obj(w.value)}
    else if w.value == 0 then {}
    else if tag == DYNAMIC || tag == AST_POINTER then {Obj(w.value)}
    else if tag == TYPE_POINTER then (if HasFields(Ver(mem, w.value)) then {Obj(w.value)} else {})
    else if tag == FUNCTION_POINTER then {Func(w.value)}
    else {}
  }

  function Targets(mem: seq<nat>, ws: seq<TypedWord>): set<Item> {
    if ws == [] then {} else Target(mem, ws[0]) + Targets(mem, ws[1..])
  }

  function Successors(h: Heap, layout: Layout, i: Item): set<Item> {
    Targets(h.mem, ItemWords(h, layout, i))
  }

  /** A path along typed pointers. */
  ghost predicate Path(h: Heap, layout: Layout, p: seq<Item>) {
    |p| > 0 && forall k | 0 <= k < |p| - 1 :: p[k + 1] in Successors(h, layout, p[k])
  }

  ghost predicate Leads(h: Heap, layout: Layout, p: seq<Item>, roots: set<Item>, i: Item) {
    Path(h, layout, p) && p[0] in roots && p[|p| - 1] == i
  }

  ghost predicate Reachable(h: Heap, layout: Layout, roots: set<Item>, i: Item) {
    exists p: seq<Item> :: Leads(h, layout, p, roots, i)
  }

  // ---------------------------------------------------------------- well typed heaps

  /** A type of one-word values: a tag without fields, or a type object. */
  ghost predicate SimpleType(mem: seq<nat>, layout: Layout, t: nat) {
    && t != 0
    && (if t > NEVER_REACHED then t in layout && layout[t] == Type && Ver(mem, t) != CON_VEC
        else t < DOES_NOT_RETURN && !HasFields(t))
  }

  ghost predicate TypeOk(mem: seq<nat>, layout: Layout, t: nat) {
    && t != 0
    && (t > NEVER_REACHED ==> t in layout && layout[t] == Type)
    && (forall c | c in Components(mem, t) :: SimpleType(mem, layout, c))
    && (Ver(mem, t) == CON_VEC ==> t > NEVER_REACHED && Field(mem, t, 0) >= 2)
  }

  /** A word holds a value of its type: an address it holds was allocated for that. */
  ghost predicate WordOk(h: Heap, layout: Layout, w: TypedWord) {
    var tag := Ver(h.mem, w.ty);
    && SimpleType(h.mem, layout, w.ty)
    && (tag == FULL_POINTER ==> w.value in layout && layout[w.value] == Pointee(Field(h.mem, w.ty, 0)))
    && (tag == VECTOR ==> w.value in layout && layout[w.value] == Vector(Field(h.mem, w.ty, 0)))
    && (tag == DYNAMIC && w.value != 0 ==> w.value in layout && layout[w.value] == Dynamic)
    && (tag == AST_POINTER && w.value != 0 ==> w.value in layout && layout[w.value] == Ast)
    && (tag == TYPE_POINTER && w.value != 0 ==> if w.value > NEVER_REACHED then w.value in layout && layout[w.value] ==
         Type else !HasFields(w.value))
    && (tag == FUNCTION_POINTER && w.value != 0 ==> w.value in h.functions)
  }

  ghost predicate WordsOk(h: Heap, layout: Layout, ws: seq<TypedWord>) {
    forall i | 0 <= i < |ws| :: WordOk(h, layout, ws[i])
  }

  /** An object is inside the pool and holds what its kind says. */
  ghost predicate ObjectOk(h: Heap, layout: Layout, a: nat, k: Kind) {
    && POOL_START <= a && a + Extent(h.mem, a, k) <= |h.mem|
    && (k.Pointee? ==> TypeOk(h.mem, layout, k.t))
    && (k.Dynamic? ==> TypeOk(h.mem, layout, At(h.mem, a)))
    && (k.Vector? ==> At(h.mem, a) <= At(h.mem, a + 1))
    && (k.Ast? ==> At(h.mem, a) < |AST_FIELDS|)
    && (k.Type? ==> HasFields(At(h.mem, a)) && TypeFields(h.mem, layout, a))
    && WordsOk(h, layout, ObjectWords(h, a, k))
  }

  /** A type object: its components, or its one field, are types themselves. */
  ghost predicate TypeFields(mem: seq<nat>, layout: Layout, a: nat) {
    if At(mem, a) == CON_VEC then TypeOk(mem, layout, a) else TypeOk(mem, layout, Field(mem, a, 0))
  }

  /** The heap is well typed: every object holds what its kind says, functions have their own
      slots, and no two objects overlap. */
  ghost predicate WellTyped(h: Heap, layout: Layout) {
    && (forall a | a in layout :: ObjectOk(h, layout, a, layout[a]))
    && (forall w | w in h.functions :: WordsOk(h, layout, FunctionWords(h.functions[w])))
    && (forall w, v | w in h.functions && v in h.functions && w != v :: h.functions[w].slot != h.functions[v].slot)
    && (forall a, b | a in layout && b in layout && a < b :: a + Extent(h.mem, a, layout[a]) <= b)
    && SimpleType(h.mem, layout, h.vectorOfAsts)
    && Ver(h.mem, h.vectorOfAsts) == VECTOR && Field(h.mem, h.vectorOfAsts, 0) == AST_POINTER
  }

  function Items(h: Heap, layout: Layout): set<Item> {
    (set a | a in layout :: Obj(a)) + (set w | w in h.functions :: Func(w))
  }

  // ---------------------------------------------------------------- paths

  lemma {:induction false} TargetsIn(mem: seq<nat>, ws: seq<TypedWord>, i: Item)
    ensures i in Targets(mem, ws) <==> exists k :: 0 <= k < |ws| && i in Target(mem, ws[k])
  {
    if ws != [] {
      TargetsIn(mem, ws[1..], i);
      assert forall k | 0 <= k < |ws| - 1 :: ws[1..][k] == ws[k + 1];
      if i in Targets(mem, ws[1..]) {
        var k :| 0 <= k < |ws| - 1 && i in Target(mem, ws[1..][k]);
        assert i in Target(mem, ws[k + 1]);
      }
      if k :| 0 <= k < |ws| && i in Target(mem, ws[k]) {
        if k > 0 { assert i in Target(mem, ws[1..][k - 1]); }
      }
    }
  }

  lemma {:induction false} TargetsAppend(mem: seq<nat>, ws: seq<TypedWord>, vs: seq<TypedWord>)
    ensures Targets(mem, ws + vs) == Targets(mem, ws) + Targets(mem, vs)
  {
    if ws == [] {
      assert ws + vs == vs;
    } else {
      TargetsAppend(mem, ws[1..], vs);
      assert (ws + vs)[1..] == ws[1..] + vs;
    }
  }

  lemma ReachRoot(h: Heap, layout: Layout, roots: set<Item>, i: Item)
    requires i in roots
    ensures Reachable(h, layout, roots, i)
  {
    assert Leads(h, layout, [i], roots, i);
  }

  lemma ReachMore(h: Heap, layout: Layout, roots: set<Item>, more: set<Item>, i: Item)
    requires Reachable(h, layout, roots, i) && roots <= more
    ensures Reachable(h, layout, more, i)
  {
    hide Path;
    var p :| Leads(h, layout, p, roots, i);
    assert Leads(h, layout, p, more, i);
  }

  /** What is reached from the successors of an item is reached from the item. */
  lemma ReachThrough(h: Heap, layout: Layout, x: Item, i: Item)
    requires Reachable(h, layout, Successors(h, layout, x), i)
    ensures Reachable(h, layout, {x}, i)
  {
    hide Successors;
    var p :| Leads(h, layout, p, Successors(h, layout, x), i);
    assert Leads(h, layout, [x] + p, {x}, i);
  }

  /** A set that holds the roots and the successors of its members holds all that is reachable. */
  lemma ClosedHoldsReachable(h: Heap, layout: Layout, roots: set<Item>, closed: set<Item>, i: Item)
    requires roots <= closed && forall x | x in closed :: Successors(h, layout, x) <= closed
    requires Reachable(h, layout, roots, i)
    ensures i in closed
  {
    hide Successors;
    var p :| Leads(h, layout, p, roots, i);
    var k := 0;
    while k < |p| - 1
      invariant 0 <= k < |p| && p[k] in closed
    {
      k := k + 1;
    }
  }
}
