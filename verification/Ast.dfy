/** AST graphs and the value types of the fragment the compiler model covers. */
module Ast {
  import opened Words

  /** The address of an AST node; 0 is the null pointer. */
  type Ptr = nat

  /** The one-word types without fields. Larger values are concatenations of these. */
  datatype Scalar = Integer | DynamicObject | AstPointer | TypePointer | FunctionPointer

  /** A type: null is [], a single type has one element, and a con_vec has two or more. */
  type Ty = seq<Scalar>

  const INT: Ty := [Integer]

  datatype ArithOp =
    | Zero | Decrement | Increment
    | LessU | LessS | Add | Subtract | Multiply
    | UShr | SShr | Shl | UDiv | URem

  function Arity(op: ArithOp): nat {
    match op
    case Zero => 0
    case Decrement | Increment => 1
    case _ => 2
  }

  /** An AST node. `Imv` holds the type and the words of its dynamic object (the null
      dynamic object is type []); `Block` is a basic block and holds its vector. */
  datatype Node =
    | Imv(ty: Ty, words: seq<Word>)
    | Block(elems: seq<Ptr>)
    | Arith(op: ArithOp, args: seq<Ptr>)
    | If(cond: Ptr, thn: Ptr, els: Ptr)
    | Concatenate(left: Ptr, right: Ptr)
    | Store(target: Ptr, value: Ptr)
    | Label(body: Ptr)
    | Goto(dest: Ptr)
    | RunFunction(fn: Ptr)

  type Graph = map<Ptr, Node>

  predicate WellFormedNode(n: Node) {
    match n
    case Imv(ty, ws) => |ty| == |ws|
    case Arith(op, args) => |args| == Arity(op)
    case _ => true
  }

  /** The pointers the compiler follows out of a node. A goto's target is a name, not a child. */
  function Children(n: Node): seq<Ptr> {
    match n
    case Imv(_, _) => []
    case Block(es) => es
    case Arith(_, args) => args
    case If(c, a, b) => [c, a, b]
    case Concatenate(a, b) => [a, b]
    case Store(a, b) => [a, b]
    case Label(b) => [b]
    case Goto(_) => []
    case RunFunction(f) => [f]
  }

  ghost predicate WellFormed(g: Graph) {
    && 0 !in g
    && forall p | p in g ::
         && WellFormedNode(g[p])
         && forall c | c in Children(g[p]) :: c == 0 || c in g
  }

  /** The fragment of the meaning-preservation theorem: no labels, jumps or calls. */
  ghost predicate StraightLine(g: Graph) {
    forall p | p in g :: !g[p].Label? && !g[p].Goto? && !g[p].RunFunction?
  }

  /** Every path down from t reaches leaves within the given depth. */
  predicate Within(g: Graph, depth: nat, t: Ptr)
    requires WellFormed(g)
    requires t == 0 || t in g
    decreases depth
  {
    t == 0 ||
    (depth > 0 && forall c | c in Children(g[t]) :: Within(g, depth - 1, c))
  }

  ghost predicate Acyclic(g: Graph, t: Ptr)
    requires WellFormed(g)
    requires t == 0 || t in g
  {
    exists depth: nat :: Within(g, depth, t)
  }

  lemma {:induction false} WithinMonotone(g: Graph, depth: nat, more: nat, t: Ptr)
    requires WellFormed(g) && (t == 0 || t in g)
    requires Within(g, depth, t) && depth <= more
    ensures Within(g, more, t)
    decreases depth
  {
    if t != 0 {
      forall c | c in Children(g[t]) ensures Within(g, more - 1, c) {
        WithinMonotone(g, depth - 1, more - 1, c);
      }
    }
  }

  /** Whether a value of the first type may be placed in a slot of the second: any word but
      a dynamic object may be read as an integer, and otherwise the tags must agree. */
  predicate ScalarFits(existing: Scalar, slot: Scalar) {
    existing == slot || (slot == Integer && existing != DynamicObject)
  }

  predicate Fits(existing: Ty, slot: Ty) {
    |existing| == |slot| && forall i | 0 <= i < |slot| :: ScalarFits(existing[i], slot[i])
  }

  /** The type of an `if`, from the types of its branches; null when neither fits the other. */
  function JoinTypes(thn: Ty, els: Ty): Ty {
    if Fits(els, thn) then thn else if Fits(thn, els) then els else []
  }

  /** The static type of an AST, whatever scope it is compiled in. */
  function TypeOf(g: Graph, depth: nat, t: Ptr): Ty
    requires WellFormed(g) && (t == 0 || t in g)
    requires Within(g, depth, t)
    decreases depth
  {
    if t == 0 then [] else
    match g[t]
    case Imv(ty, _) => ty
    case Block(es) =>
      if |es| == 0 then [] else assert es[|es| - 1] in Children(g[t]); TypeOf(g, depth - 1, es[|es| - 1])
    case Arith(_, _) => INT
    case If(c, a, b) =>
      assert a in Children(g[t]) && b in Children(g[t]);
      JoinTypes(TypeOf(g, depth - 1, a), TypeOf(g, depth - 1, b))
    case Concatenate(a, b) =>
      assert a in Children(g[t]) && b in Children(g[t]);
      TypeOf(g, depth - 1, a) + TypeOf(g, depth - 1, b)
    case Store(_, _) => []
    case Label(_) => []
    case Goto(_) => []
    case RunFunction(_) => [DynamicObject]
  }

  lemma {:induction false} TypeOfStable(g: Graph, depth: nat, other: nat, t: Ptr)
    requires WellFormed(g) && (t == 0 || t in g)
    requires Within(g, depth, t) && Within(g, other, t)
    ensures TypeOf(g, depth, t) == TypeOf(g, other, t)
    decreases depth
  {
    if t != 0 {
      match g[t]
      case Block(es) =>
        if |es| > 0 { TypeOfStable(g, depth - 1, other - 1, es[|es| - 1]); }
      case If(c, a, b) =>
        assert a in Children(g[t]) && b in Children(g[t]);
        TypeOfStable(g, depth - 1, other - 1, a);
        TypeOfStable(g, depth - 1, other - 1, b);
      case Concatenate(a, b) =>
        assert a in Children(g[t]) && b in Children(g[t]);
        TypeOfStable(g, depth - 1, other - 1, a);
        TypeOfStable(g, depth - 1, other - 1, b);
      case _ =>
    }
  }

  /** The operands of a node have the types that it needs. */
  ghost predicate OperandsFit(g: Graph, depth: nat, t: Ptr)
    requires WellFormed(g) && t in g && forall c | c in Children(g[t]) :: Within(g, depth, c)
  {
    match g[t]
    case Arith(_, args) => forall a | a in args :: Fits(TypeOf(g, depth, a), INT)
    case If(c, _, _) => assert c in Children(g[t]); Fits(TypeOf(g, depth, c), INT)
    case RunFunction(f) => assert f in Children(g[t]); Fits(TypeOf(g, depth, f), [FunctionPointer])
    case Store(a, b) =>
      assert a in Children(g[t]) && b in Children(g[t]);
      TypeOf(g, depth, a) != [] && Fits(TypeOf(g, depth, b), TypeOf(g, depth, a))
    case _ => true
  }

  /** So do those of all nodes below it. */
  ghost predicate AllFit(g: Graph, depth: nat, t: Ptr)
    requires WellFormed(g) && (t == 0 || t in g)
    requires Within(g, depth, t)
    decreases depth
  {
    t == 0 || (OperandsFit(g, depth - 1, t) && forall c | c in Children(g[t]) :: AllFit(g, depth - 1, c))
  }

  lemma OperandsStable(g: Graph, depth: nat, other: nat, t: Ptr)
    requires WellFormed(g) && t in g
    requires forall c | c in Children(g[t]) ::
      Within(g, depth, c) && Within(g, other, c) && TypeOf(g, depth, c) == TypeOf(g, other, c)
    ensures OperandsFit(g, depth, t) == OperandsFit(g, other, t)
  {
    hide TypeOf, Within, Fits;
    match g[t]
    case If(c, _, _) => assert c in Children(g[t]);
    case RunFunction(f) => assert f in Children(g[t]);
    case Store(a, b) => assert a in Children(g[t]) && b in Children(g[t]);
    case _ =>
  }

  lemma {:induction false} AllFitStable(g: Graph, depth: nat, other: nat, t: Ptr)
    requires WellFormed(g) && (t == 0 || t in g)
    requires Within(g, depth, t) && Within(g, other, t) && AllFit(g, depth, t)
    ensures AllFit(g, other, t)
    decreases depth
  {
    hide OperandsFit;
    if t != 0 {
      forall c | c in Children(g[t])
        ensures Within(g, other - 1, c) && AllFit(g, other - 1, c)
        ensures TypeOf(g, depth - 1, c) == TypeOf(g, other - 1, c)
      {
        AllFitStable(g, depth - 1, other - 1, c);
        TypeOfStable(g, depth - 1, other - 1, c);
      }
      OperandsStable(g, depth - 1, other - 1, t);
    }
  }
}
