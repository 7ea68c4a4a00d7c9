/**
 Direct evaluation of AST graphs: what the language means, with no code, registers or slots.
 The environment maps each living AST to its current value; a value that was evaluated as an
 element of a basic block is named, and can be stored into.
 */
module Evaluator {
  import opened Options
  import opened Words
  import opened Ast
  import opened IR

  datatype Obj = Obj(words: seq<Word>, named: bool)

  type Env = map<Ptr, Obj>

  /** A value, and the living AST it can be stored back into, if any. */
  datatype Value = Value(words: seq<Word>, place: Option<Ptr>)

  const NULL_VALUE: Value := Value([], None)

  datatype Outcome = Stuck | Result(value: Value, env: Env)

  datatype Fields = StuckFields | FieldValues(values: seq<Value>, env: Env)

  datatype Computation = StuckNode | Computed(words: seq<Word>, env: Env)

  /** Division by zero gives 0, a remainder by zero gives the dividend, and shifts of 64 or
      more give 0, also for the signed shift of a negative number. */
  function Denote(op: ArithOp, xs: seq<Word>): Word
    requires |xs| == Arity(op)
  {
    match op
    case Zero => 0
    case Increment => Wrap(xs[0] as int + 1)
    case Decrement => Wrap(xs[0] as int - 1)
    case Add => Wrap(xs[0] as int + xs[1] as int)
    case Subtract => Wrap(xs[0] as int - xs[1] as int)
    case Multiply => Wrap(xs[0] as int * xs[1] as int)
    case LessU => FromBool(xs[0] < xs[1])
    case LessS => FromBool(Signed(xs[0]) < Signed(xs[1]))
    case UDiv => if xs[1] == 0 then 0 else Wrap(xs[0] / xs[1])
    case URem => if xs[1] == 0 then xs[0] else Wrap(xs[0] % xs[1])
    case UShr => if xs[1] < 64 then Wrap(xs[0] / Pow2(xs[1])) else 0
    case SShr => if xs[1] < 64 then Wrap(Signed(xs[0]) / Pow2(xs[1])) else 0
    case Shl => if xs[1] < 64 then Wrap(xs[0] * Pow2(xs[1])) else 0
  }

  /** Leaving a scope: what was not living when it was entered no longer is. */
  function Restrict(env: Env, keys: set<Ptr>): Env {
    map x | x in env && x in keys :: env[x]
  }

  /** The end of an AST that was entered with env0. */
  function Leave(env0: Env, env: Env, t: Ptr, named: bool, ws: seq<Word>): (o: Outcome)
    ensures o.Result?
  {
    var kept := if named then Restrict(env, env0.Keys) else env;
    if ws == [] then Result(NULL_VALUE, kept)
    else Result(Value(ws, if named then Some(t) else None), kept[t := Obj(ws, named)])
  }

  predicate SingleWords(vs: seq<Value>) {
    forall i | 0 <= i < |vs| :: |vs[i].words| == 1
  }

  function Eval(g: Graph, depth: nat, env: Env, t: Ptr, named: bool): Outcome
    requires WellFormed(g) && (t == 0 || t in g) && Within(g, depth, t)
    decreases depth, 0
  {
    if t == 0 then Result(NULL_VALUE, env)
    else if t in env then Result(Value(env[t].words, if env[t].named then Some(t) else None), env)
    else if g[t].Block? then
      assert forall c | c in g[t].elems :: c in Children(g[t]);
      EvalBlock(g, depth - 1, env, g[t].elems, NULL_VALUE)
    else
      var w := EvalNode(g, depth - 1, env, t);
      if w.StuckNode? then Stuck else Leave(env, w.env, t, named, w.words)
  }

  function EvalBlock(g: Graph, depth: nat, env: Env, elems: seq<Ptr>, last: Value): Outcome
    requires WellFormed(g)
    requires forall c | c in elems :: (c == 0 || c in g) && Within(g, depth, c)
    decreases depth, |elems| + 1
  {
    if elems == [] then Result(last, env)
    else
      var r := Eval(g, depth, env, elems[0], true);
      if r.Stuck? then Stuck else EvalBlock(g, depth, r.env, elems[1..], r.value)
  }

  function EvalFields(g: Graph, depth: nat, env: Env, ps: seq<Ptr>): Fields
    requires WellFormed(g)
    requires forall c | c in ps :: (c == 0 || c in g) && Within(g, depth, c)
    decreases depth, |ps| + 1
  {
    if ps == [] then FieldValues([], env)
    else
      var r := Eval(g, depth, env, ps[0], false);
      if r.Stuck? then StuckFields else
      var rest := EvalFields(g, depth, r.env, ps[1..]);
      if rest.StuckFields? then StuckFields else FieldValues([r.value] + rest.values, rest.env)
  }

  /** The children that are evaluated before an AST itself. */
  function Operands(n: Node): seq<Ptr> {
    match n
    case Arith(_, args) => args
    case If(c, _, _) => [c]
    case Concatenate(a, b) => [a, b]
    case Store(a, b) => [a, b]
    case _ => []
  }

  /** An AST that is not a basic block, given the depth of its children. */
  function EvalNode(g: Graph, depth: nat, env: Env, t: Ptr): Computation
    requires WellFormed(g) && t in g
    requires forall c | c in Children(g[t]) :: Within(g, depth, c)
    decreases depth, |Children(g[t])| + 2
  {
    var f := EvalFields(g, depth, env, Operands(g[t]));
    if f.StuckFields? || |f.values| != |Operands(g[t])| then StuckNode
    else match g[t]
      case Imv(_, ws) => Computed(ws, f.env)
      case Arith(op, _) =>
        if !SingleWords(f.values) then StuckNode
        else Computed([Denote(op, seq(|f.values|, i requires 0 <= i < |f.values| => f.values[i].words[0]))], f.env)
      case If(_, thn, els) =>
        assert thn in Children(g[t]) && els in Children(g[t]);
        if !SingleWords(f.values) then StuckNode else
        var branch := Eval(g, depth, f.env, if f.values[0].words[0] != 0 then thn else els, false);
        if branch.Stuck? then StuckNode else
        var ty := JoinTypes(TypeOf(g, depth, thn), TypeOf(g, depth, els));
        Computed(if ty == [] then [] else branch.value.words, Restrict(branch.env, f.env.Keys))
      case Concatenate(_, _) => Computed(f.values[0].words + f.values[1].words, f.env)
      case Store(_, _) =>
        var place := f.values[0].place;
        if place.None? || place.value !in f.env || |f.values[0].words| != |f.values[1].words| then StuckNode
        else Computed([], f.env[place.value := Obj(f.values[1].words, true)])
      case _ => StuckNode
  }
}
