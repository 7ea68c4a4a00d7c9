/**
 What `generate_IR` emits, as a function of the compiler's state: scopes, cached values,
 named slots, branches and labels. `Compiler.dfy` holds the method that works in place.
 */
module CodeGen {
  import opened Options
  import opened Words
  import opened IR
  import opened Ast

  datatype ErrorCode =
    | NullAst | InfiniteLoop | TypeMismatch | MissingReference | MissingLabel | LabelDuplication

  /** Where the value of an AST is. `ir` is the value itself, and `place` its slot if it has
      one. A value that was just given a slot has no usable `ir`. */
  datatype Info = Info(ty: Ty, ir: Operand, place: Option<nat>)

  const NULL_INFO: Info := Info([], Lit([]), None)

  datatype LabelInfo = LabelInfo(block: nat, stackSize: nat, isForward: bool)

  datatype Res = Failed(code: ErrorCode, at: Ptr, field: nat) | Done(info: Info)

  /** The compiler's state. `cur` is the insertion point, `regs` the next unused register,
      and `order` lists the blocks in the order the builder was positioned on them. */
  datatype St = St(
    fn: Fn, cur: nat, regs: nat,
    objects: map<Ptr, Info>, stack: seq<Ptr>, labels: map<Ptr, LabelInfo>,
    order: seq<nat>)

  datatype Out = Out(st: St, res: Res)

  datatype FieldsOut = FieldsOut(st: St, error: Option<Res>, infos: seq<Info>)

  /** A field that is compiled before its node, and the type it must fit if it is checked. */
  datatype Field = Field(ptr: Ptr, want: Option<Ty>)

  function CompiledFields(n: Node): seq<Field> {
    match n
    case Arith(_, args) => seq(|args|, i requires 0 <= i < |args| => Field(args[i], Some(INT)))
    case If(c, _, _) => [Field(c, Some(INT))]
    case Concatenate(a, b) => [Field(a, None), Field(b, None)]
    case Store(a, b) => [Field(a, None), Field(b, None)]
    case RunFunction(f) => [Field(f, Some([FunctionPointer]))]
    case _ => []
  }

  lemma CompiledFieldsAreChildren(n: Node, i: nat)
    requires i < |CompiledFields(n)|
    ensures CompiledFields(n)[i].ptr in Children(n)
  {
    if n.Arith? { assert n.args[i] in n.args; }
  }

  ghost predicate CurOk(s: St) {
    s.cur < |s.fn.blocks|
  }

  /** Emission never removes a block. */
  ghost predicate Onward(s: St, s': St) {
    CurOk(s') && |s.fn.blocks| <= |s'.fn.blocks|
  }

  // ---------------------------------------------------------------- the builder

  function Emit(s: St, i: Instr): (s': St)
    requires CurOk(s)
    ensures Onward(s, s')
  {
    var b := s.fn.blocks[s.cur];
    s.(fn := s.fn.(blocks := s.fn.blocks[s.cur := b.(body := b.body + [i])]))
  }

  function EmitCompute(s: St, op: BinOp, a: Operand, b: Operand): (r: (St, Operand))
    requires CurOk(s)
    ensures Onward(s, r.0)
  {
    (Emit(s, Compute(s.regs, op, a, b)).(regs := s.regs + 1), Reg(s.regs))
  }

  function SetTerm(s: St, t: Term): (s': St)
    requires CurOk(s)
    ensures Onward(s, s')
  {
    s.(fn := s.fn.(blocks := s.fn.blocks[s.cur := s.fn.blocks[s.cur].(term := Some(t))]))
  }

  /** Creates a block at the end of the function; its index is the old number of blocks. */
  function NewBlock(s: St): St {
    s.(fn := s.fn.(blocks := s.fn.blocks + [IR.Block([], None)]))
  }

  function Position(s: St, b: nat): St {
    s.(cur := b, order := s.order + [b])
  }

  /** One word of a value: a value of several words is an aggregate and is taken apart. */
  function WordOf(s: St, val: Operand, size: nat, k: nat): (r: (St, Operand))
    requires CurOk(s)
    ensures Onward(s, r.0)
  {
    if size > 1 then (Emit(s, Extract(s.regs, val, k)).(regs := s.regs + 1), Reg(s.regs)) else (s, val)
  }

  /** Copies words k.. of a value into a slot, one at a time. */
  function WritePlace(s: St, slot: nat, val: Operand, size: nat, k: nat): (s': St)
    requires CurOk(s)
    ensures Onward(s, s')
    decreases size - k
  {
    if k >= size then s
    else
      var (s1, x) := WordOf(s, val, size, k);
      WritePlace(Emit(s1, IR.Store(slot, k, x)), slot, val, size, k + 1)
  }

  /** Copies words k.. of a value into positions offset+k.. of a register aggregate. */
  function WriteAggregate(s: St, target: Operand, offset: nat, val: Operand, size: nat, k: nat): (r: (St, Operand))
    requires CurOk(s)
    ensures Onward(s, r.0)
    decreases size - k
  {
    if k >= size then (s, target)
    else
      var (s1, x) := WordOf(s, val, size, k);
      var s2 := Emit(s1, Insert(s1.regs, target, x, offset + k)).(regs := s1.regs + 1);
      WriteAggregate(s2, Reg(s1.regs), offset, val, size, k + 1)
  }

  /** Loads words k.. of a slot on top of an aggregate that holds the words before them. */
  function LoadAggregate(s: St, slot: nat, target: Operand, size: nat, k: nat): (r: (St, Operand))
    requires CurOk(s)
    decreases size - k
    ensures Onward(s, r.0)
  {
    if k >= size then (s, target)
    else
      var s1 := Emit(s, Load(s.regs, slot, k)).(regs := s.regs + 1);
      var s2 := Emit(s1, Insert(s1.regs, target, Reg(s.regs), k)).(regs := s1.regs + 1);
      LoadAggregate(s2, slot, Reg(s1.regs), size, k + 1)
  }

  function LoadFrom(s: St, slot: nat, size: nat): (r: (St, Operand))
    requires CurOk(s)
    ensures Onward(s, r.0)
  {
    if size == 1 then (Emit(s, Load(s.regs, slot, 0)).(regs := s.regs + 1), Reg(s.regs))
    else LoadAggregate(s, slot, Undef(size), size, 0)
  }

  // ---------------------------------------------------------------- scopes

  /** Pops the scope stack down to n entries; the popped ASTs are no longer living. */
  function ClearStack(s: St, n: nat): St {
    if |s.stack| <= n then s
    else s.(stack := s.stack[..n], objects := map x | x in s.objects && x !in s.stack[n..] :: s.objects[x])
  }

  function NewLiving(s: St, t: Ptr, info: Info): St {
    if t in s.objects then s
    else s.(objects := s.objects[t := info], stack := s.stack + [t])
  }

  /** Ends an AST: drops its temporaries if it is a direct basic-block element, gives its
      value a slot in that case, and makes the value visible to later references. */
  function Finish(s: St, t: Ptr, named: bool, base: nat, ir: Operand, ty: Ty): (o: Out)
    requires CurOk(s)
    ensures Onward(s, o.st)
    ensures o.res.Done?
  {
    var s1 := if named then ClearStack(s, base) else s;
    if ty == [] then Out(s1, Done(NULL_INFO))
    else if named then
      var slot := |s1.fn.slots|;
      var s2 := WritePlace(s1.(fn := s1.fn.(slots := s1.fn.slots + [|ty|])), slot, ir, |ty|, 0);
      var info := Info(ty, Lit([]), Some(slot));
      Out(NewLiving(s2, t, info), Done(info))
    else
      var info := Info(ty, ir, None);
      Out(NewLiving(s1, t, info), Done(info))
  }

  // ---------------------------------------------------------------- operators

  /** A conditional branch to two of three new blocks: the merge block comes first, then the
      two cases, and the first case becomes current. */
  function BranchOn(s: St, cond: Operand): (s': St)
    requires CurOk(s)
    ensures Onward(s, s') && |s'.fn.blocks| == |s.fn.blocks| + 3
  {
    var n := |s.fn.blocks|;
    Position(SetTerm(NewBlock(NewBlock(NewBlock(s))), CondBr(cond, n + 1, n + 2)), n + 1)
  }

  /** `cond ? x op y : other`, as two blocks that meet in a phi. */
  function Guarded(s: St, cond: Operand, op: BinOp, x: Operand, y: Operand, other: Operand): (r: (St, Operand))
    requires CurOk(s)
    ensures Onward(s, r.0)
  {
    var n := |s.fn.blocks|;
    var (s1, z) := EmitCompute(BranchOn(s, cond), op, x, y);
    var s2 := Position(SetTerm(s1, Br(n)), n + 2);
    var s3 := Position(SetTerm(s2, Br(n)), n);
    (Emit(s3, Phi(s3.regs, z, n + 1, other, n + 2)).(regs := s3.regs + 1), Reg(s3.regs))
  }

  /** Compares y with a limit, and applies op to x and y only if the comparison holds. */
  function Checked(s: St, cmp: BinOp, limit: Word, op: BinOp, x: Operand, y: Operand,
      other: Operand): (r: (St, Operand))
    requires CurOk(s)
    ensures Onward(s, r.0)
  {
    var (s1, c) := EmitCompute(s, cmp, y, Lit([limit]));
    Guarded(s1, c, op, x, y, other)
  }

  function EmitArith(s: St, op: ArithOp, args: seq<Operand>): (r: (St, Operand))
    requires CurOk(s) && |args| == Arity(op)
    ensures Onward(s, r.0)
  {
    match op
    case Zero => (s, Lit([0]))
    case Increment => EmitCompute(s, IR.Add, args[0], Lit([1]))
    case Decrement => EmitCompute(s, IR.Sub, args[0], Lit([1]))
    case Add => EmitCompute(s, IR.Add, args[0], args[1])
    case Subtract => EmitCompute(s, IR.Sub, args[0], args[1])
    case Multiply => EmitCompute(s, IR.Mul, args[0], args[1])
    case LessU => EmitCompute(s, ULT, args[0], args[1])
    case LessS => EmitCompute(s, SLT, args[0], args[1])
    case UDiv => Checked(s, NE, 0, IR.UDiv, args[0], args[1], Lit([0]))
    case URem => Checked(s, NE, 0, IR.URem, args[0], args[1], args[0])
    case UShr => Checked(s, ULT, 64, LShr, args[0], args[1], Lit([0]))
    case SShr => Checked(s, ULT, 64, AShr, args[0], args[1], Lit([0]))
    case Shl => Checked(s, ULT, 64, IR.Shl, args[0], args[1], Lit([0]))
  }

  /** Squashes two values into one aggregate; a one-word result is not an aggregate. */
  function EmitConcatenate(s: St, a: Info, b: Info): (r: (St, Operand))
    requires CurOk(s)
    ensures Onward(s, r.0)
  {
    var total := |a.ty| + |b.ty|;
    if total == 1 then (s, if |a.ty| == 1 then a.ir else b.ir)
    else
      var (s1, x) := WriteAggregate(s, Undef(total), 0, a.ir, |a.ty|, 0);
      WriteAggregate(s1, x, |a.ty|, b.ir, |b.ty|, 0)
  }

  // ---------------------------------------------------------------- generate_IR

  function Gen(g: Graph, path: set<Ptr>, s: St, t: Ptr, named: bool): (o: Out)
    requires WellFormed(g) && (t == 0 || t in g) && CurOk(s)
    ensures Onward(s, o.st)
    decreases |g.Keys - path|, 0
  {
    if t == 0 then Out(s, Done(NULL_INFO))
    else if t in s.objects then
      var info := s.objects[t];
      if info.place.Some? then
        var (s1, x) := LoadFrom(s, info.place.value, |info.ty|);
        Out(s1, Done(info.(ir := x)))
      else Out(s, Done(info))
    else if t in path then Out(s, Failed(InfiniteLoop, t, 10))
    else
      assert g.Keys - path == g.Keys - (path + {t}) + {t};
      var f := GenFields(g, path + {t}, s, t, CompiledFields(g[t]), 0, []);
      if f.error.Some? then Out(f.st, f.error.value)
      else GenTag(g, path + {t}, f.st, t, named, |s.stack|, f.infos)
  }

  function GenFields(g: Graph, path: set<Ptr>, s: St, t: Ptr, fields: seq<Field>, i: nat,
      infos: seq<Info>): (o: FieldsOut)
    requires WellFormed(g) && t in g && CurOk(s) && t in path
    requires fields == CompiledFields(g[t]) && i <= |fields|
    requires |infos| == i
    ensures Onward(s, o.st)
    ensures o.error.None? ==> |o.infos| == |fields|
    ensures o.error.Some? ==> o.error.value.Failed?
    decreases |g.Keys - path|, |fields| - i + 1
  {
    if i == |fields| then FieldsOut(s, None, infos)
    else
      CompiledFieldsAreChildren(g[t], i);
      var r := Gen(g, path, s, fields[i].ptr, false);
      if r.res.Failed? then FieldsOut(r.st, Some(r.res), infos)
      else if fields[i].want.Some? && !Fits(r.res.info.ty, fields[i].want.value) then
        FieldsOut(r.st, Some(Failed(TypeMismatch, t, i)), infos)
      else GenFields(g, path, r.st, t, fields, i + 1, infos + [r.res.info])
  }

  /** The part of `generate_IR` that depends on the tag, once the fields are compiled. */
  function GenTag(g: Graph, path: set<Ptr>, s: St, t: Ptr, named: bool, base: nat, f: seq<Info>): (o: Out)
    requires WellFormed(g) && t in g && CurOk(s) && t in path
    requires |f| == |CompiledFields(g[t])|
    ensures Onward(s, o.st)
    decreases |g.Keys - path|, |Children(g[t])| + 2
  {
    match g[t]
    case Imv(ty, ws) => Finish(s, t, named, base, Lit(ws), ty)
    case Block(elems) => GenBlock(g, path, s, t, elems, 0, named, NULL_INFO)
    case Arith(op, _) =>
      var (s1, x) := EmitArith(s, op, seq(|f|, i requires 0 <= i < |f| => f[i].ir));
      Finish(s1, t, named, base, x, INT)
    case If(_, thn, els) => GenIf(g, path, s, t, named, base, f[0].ir, thn, els)
    case Concatenate(_, _) =>
      if f[0].ty + f[1].ty == [] then Finish(s, t, named, base, Lit([]), [])
      else
        var (s1, x) := EmitConcatenate(s, f[0], f[1]);
        Finish(s1, t, named, base, x, f[0].ty + f[1].ty)
    case Store(_, _) =>
      if f[0].ty == [] then Out(s, Failed(TypeMismatch, t, 0))
      else if !Fits(f[1].ty, f[0].ty) then Out(s, Failed(TypeMismatch, t, 1))
      else if f[0].place.None? then Out(s, Failed(MissingReference, t, 0))
      else
        var s1 := WritePlace(s, f[0].place.value, f[1].ir, |f[1].ty|, 0);
        Finish(s1, t, named, base, Lit([]), [])
    case Label(body) => GenLabel(g, path, s, t, named, base, body)
    case Goto(dest) => GenGoto(s, t, named, base, dest)
    case RunFunction(_) =>
      var s1 := Emit(s, Call(s.regs, f[0].ir)).(regs := s.regs + 1);
      Finish(s1, t, named, base, Reg(s.regs), [DynamicObject])
  }

  /** The elements of a basic block, each given a slot; the value is that of the last. */
  function GenBlock(g: Graph, path: set<Ptr>, s: St, t: Ptr, elems: seq<Ptr>, i: nat, named: bool, last: Info): (o: Out)
    requires WellFormed(g) && t in g && CurOk(s) && t in path
    requires g[t] == Ast.Block(elems) && i <= |elems|
    ensures Onward(s, o.st)
    decreases |g.Keys - path|, |elems| - i + 1
  {
    if i == |elems| then
      if !named && last.place.Some? then
        var (s1, x) := LoadFrom(s, last.place.value, |last.ty|);
        Out(s1, Done(last.(ir := x)))
      else Out(s, Done(last))
    else
      assert elems[i] in Children(g[t]);
      var r := Gen(g, path, s, elems[i], true);
      if r.res.Failed? then r
      else GenBlock(g, path, r.st, t, elems, i + 1, named, r.res.info)
  }

  /** The start of an `if`: the condition branches to two new blocks, after that for the merge. */
  function IfHead(s: St, cond: Operand): (s': St)
    requires CurOk(s)
    ensures Onward(s, s') && |s'.fn.blocks| == |s.fn.blocks| + 3
  {
    var (s1, c) := EmitCompute(s, NE, cond, Lit([0]));
    BranchOn(s1, c)
  }

  /** The end of a branch: its temporaries go, it jumps to `merge`, and the block `next`
      becomes current. */
  function BranchEnd(s: St, scope: nat, merge: nat, next: nat): (s': St)
    requires CurOk(s) && next < |s.fn.blocks|
    ensures Onward(s, s')
  {
    Position(SetTerm(ClearStack(s, scope), Br(merge)), next)
  }

  /** The end of an `if`: the values of the branches meet in a phi, unless the result is null. */
  function IfTail(s: St, t: Ptr, named: bool, base: nat, ty: Ty, x0: Operand, from0: nat, x1: Operand,
      from1: nat): (o: Out)
    requires CurOk(s)
    ensures Onward(s, o.st)
    ensures o.res.Done?
  {
    if ty == [] then Finish(s, t, named, base, Lit([]), [])
    else Finish(Emit(s, Phi(s.regs, x0, from0, x1, from1)).(regs := s.regs + 1), t, named, base, Reg(s.regs), ty)
  }

  /** Both branches are compiled, each in the scope of the condition. */
  function GenIf(g: Graph, path: set<Ptr>, s: St, t: Ptr, named: bool, base: nat, cond: Operand, thn: Ptr,
      els: Ptr): (o: Out)
    requires WellFormed(g) && t in g && CurOk(s) && t in path
    requires g[t].If? && thn == g[t].thn && els == g[t].els
    ensures Onward(s, o.st)
    decreases |g.Keys - path|, 1
  {
    assert thn in Children(g[t]) && els in Children(g[t]);
    var scope, merge := |s.stack|, |s.fn.blocks|;
    var r0 := Gen(g, path, IfHead(s, cond), thn, false);
    if r0.res.Failed? then r0 else
    var r1 := Gen(g, path, BranchEnd(r0.st, scope, merge, merge + 2), els, false);
    if r1.res.Failed? then r1 else
    IfTail(BranchEnd(r1.st, scope, merge, merge), t, named, base,
           JoinTypes(r0.res.info.ty, r1.res.info.ty),
           r0.res.info.ir, r0.st.cur, r1.res.info.ir, r1.st.cur)
  }

  /** The end of a label: control falls into the label's block, and the label is now behind. */
  function LabelEnd(s: St, t: Ptr, block: nat, base: nat): (s': St)
    requires CurOk(s) && block < |s.fn.blocks|
    ensures Onward(s, s')
  {
    Position(SetTerm(s.(labels := s.labels[t := LabelInfo(block, base, false)]), Br(block)), block)
  }

  function GenLabel(g: Graph, path: set<Ptr>, s: St, t: Ptr, named: bool, base: nat, body: Ptr): (o: Out)
    requires WellFormed(g) && t in g && CurOk(s) && t in path
    requires g[t] == Label(body)
    ensures Onward(s, o.st)
    decreases |g.Keys - path|, 1
  {
    assert body in Children(g[t]);
    var block := |s.fn.blocks|;
    var s1 := NewBlock(s);
    if t in s.labels then Out(s1, Failed(LabelDuplication, t, 0))
    else
      var r := Gen(g, path, s1.(labels := s1.labels[t := LabelInfo(block, base, true)]), body, false);
      if r.res.Failed? then r
      else Finish(LabelEnd(r.st, t, block, base), t, named, base, Lit([]), [])
  }

  /** Forward, a goto jumps and goes on emitting into a block nothing reaches. Backward, it
      jumps only by spending fuel, and otherwise falls through. */
  function GenGoto(s: St, t: Ptr, named: bool, base: nat, dest: Ptr): (o: Out)
    requires CurOk(s)
    ensures Onward(s, o.st)
  {
    if dest !in s.labels then Out(s, Failed(MissingLabel, t, 0))
    else
      var next := |s.fn.blocks|;
      var term := if s.labels[dest].isForward then Br(s.labels[dest].block)
                  else SpendFuel(s.labels[dest].block, next);
      var s1 := Position(SetTerm(NewBlock(s), term), next);
      Finish(s1, t, named, base, Lit([]), [])
  }

  function Entry(): St {
    St(Fn([IR.Block([], None)], []), 0, 0, map[], [], map[], [0])
  }

  datatype Compiled = Rejected(code: ErrorCode, at: Ptr, field: nat) | Accepted(fn: Fn, ty: Ty)

  /** `compile_AST`: the whole function, ending in a return of the value of the AST. */
  function CompileAst(g: Graph, t: Ptr): Compiled
    requires WellFormed(g) && (t == 0 || t in g)
  {
    if t == 0 then Rejected(NullAst, 0, 0)
    else
      var r := Gen(g, {}, Entry(), t, false);
      match r.res
      case Failed(code, at, field) => Rejected(code, at, field)
      case Done(info) => Accepted(SetTerm(r.st, Ret(info.ir)).fn, info.ty)
  }
}
