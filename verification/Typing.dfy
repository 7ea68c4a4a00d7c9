/**
 What the compiler accepts: an accepted AST is acyclic, all operands below it fit, and it is given
 its static type; an acyclic AST is never rejected as an infinite loop.
 */
module Typing {
  import opened Options
  import opened Words
  import opened IR
  import opened Ast
  import opened CodeGen
  import opened Scopes

  ghost predicate Typed(g: Graph, t: Ptr, ty: Ty) {
    && WellFormed(g) && (t == 0 || t in g)
    && exists depth: nat :: Within(g, depth, t) && TypeOf(g, depth, t) == ty && AllFit(g, depth, t)
  }

  /** Acyclic, and all operands fit. */
  ghost predicate Fitting(g: Graph, t: Ptr) {
    && WellFormed(g) && (t == 0 || t in g)
    && exists depth: nat :: Within(g, depth, t) && AllFit(g, depth, t)
  }

  ghost predicate LivingTyped(g: Graph, objects: map<Ptr, Info>) {
    forall x | x in objects :: Typed(g, x, objects[x].ty)
  }

  lemma TypedAt(g: Graph, t: Ptr, ty: Ty, depth: nat)
    requires Typed(g, t, ty) && Within(g, depth, t)
    ensures TypeOf(g, depth, t) == ty && AllFit(g, depth, t)
  {
    var d: nat :| Within(g, d, t) && TypeOf(g, d, t) == ty && AllFit(g, d, t);
    TypeOfStable(g, d, depth, t);
    AllFitStable(g, d, depth, t);
  }

  lemma {:induction false} CommonDepth(g: Graph, cs: seq<Ptr>) returns (depth: nat)
    requires WellFormed(g)
    requires forall c | c in cs :: (c == 0 || c in g) && Acyclic(g, c)
    ensures forall c | c in cs :: Within(g, depth, c)
  {
    if cs == [] {
      depth := 0;
    } else {
      var d := CommonDepth(g, cs[1..]);
      assert cs[0] in cs;
      var d0: nat :| Within(g, d0, cs[0]);
      depth := d + d0;
      forall c | c in cs ensures Within(g, depth, c) {
        if c == cs[0] { WithinMonotone(g, d0, depth, c); }
        else { assert c in cs[1..]; WithinMonotone(g, d, depth, c); }
      }
    }
  }

  /** An AST is acyclic if its children are, and then its type follows from theirs. */
  lemma NodeDepth(g: Graph, t: Ptr) returns (depth: nat)
    requires WellFormed(g) && t in g
    requires forall c | c in Children(g[t]) :: Fitting(g, c)
    ensures depth > 0 && Within(g, depth, t)
    ensures forall c | c in Children(g[t]) :: Within(g, depth - 1, c) && AllFit(g, depth - 1, c)
  {
    hide AllFit;
    depth := CommonDepth(g, Children(g[t]));
    forall c | c in Children(g[t]) ensures AllFit(g, depth, c) {
      var d: nat :| Within(g, d, c) && AllFit(g, d, c);
      AllFitStable(g, d, depth, c);
    }
    depth := depth + 1;
  }

  ghost predicate FieldTypedAs(g: Graph, field: Field, ty: Ty) {
    Typed(g, field.ptr, ty) && (field.want.Some? ==> Fits(ty, field.want.value))
  }

  ghost predicate FieldsTyped(g: Graph, fields: seq<Field>, infos: seq<Info>) {
    |infos| <= |fields| && forall i | 0 <= i < |infos| :: FieldTypedAs(g, fields[i], infos[i].ty)
  }

  ghost predicate Sound(g: Graph, t: Ptr, o: Out) {
    LivingTyped(g, o.st.objects) && (o.res.Done? ==> Typed(g, t, o.res.info.ty))
  }

  lemma FinishSound(g: Graph, s: St, t: Ptr, named: bool, base: nat, ir: Operand, ty: Ty)
    requires CurOk(s) && LivingTyped(g, s.objects) && Typed(g, t, ty)
    ensures Sound(g, t, Finish(s, t, named, base, ir, ty))
  {
    hide Typed;
    var s1 := if named then ClearStack(s, base) else s;
    assert LivingTyped(g, s1.objects);
    if named && ty != [] {
      WritePlaceAppends(s1.(fn := s1.fn.(slots := s1.fn.slots + [|ty|])), |s1.fn.slots|, ir, |ty|, 0);
    }
  }

  lemma EmitArithObjects(s: St, op: ArithOp, args: seq<Operand>)
    requires CurOk(s) && |args| == Arity(op)
    ensures EmitArith(s, op, args).0.objects == s.objects
  {
    hide Checked, EmitCompute;
    forall cmp, limit, bin, x, y, other ensures Checked(s, cmp, limit, bin, x, y, other).0.objects == s.objects {
      CheckedObjects(s, cmp, limit, bin, x, y, other);
    }
    forall bin, x, y ensures EmitCompute(s, bin, x, y).0.objects == s.objects {
      ComputeObjects(s, bin, x, y);
    }
  }

  lemma ComputeObjects(s: St, op: BinOp, x: Operand, y: Operand)
    requires CurOk(s)
    ensures EmitCompute(s, op, x, y).0.objects == s.objects
  {
  }

  lemma CheckedObjects(s: St, cmp: BinOp, limit: Word, op: BinOp, x: Operand, y: Operand, other: Operand)
    requires CurOk(s)
    ensures Checked(s, cmp, limit, op, x, y, other).0.objects == s.objects
  {
  }

  lemma FieldTyped(g: Graph, fields: seq<Field>, infos: seq<Info>, i: nat)
    requires FieldsTyped(g, fields, infos) && i < |infos|
    ensures Typed(g, fields[i].ptr, infos[i].ty) && Fitting(g, fields[i].ptr)
    ensures fields[i].want.Some? ==> Fits(infos[i].ty, fields[i].want.value)
  {
    assert FieldTypedAs(g, fields[i], infos[i].ty);
  }

  lemma TypedFits(g: Graph, t: Ptr, ty: Ty)
    requires Typed(g, t, ty)
    ensures Fitting(g, t)
  {
  }

  lemma NullTyped(g: Graph)
    requires WellFormed(g)
    ensures Typed(g, 0, [])
  {
    assert Within(g, 0, 0) && TypeOf(g, 0, 0) == [] && AllFit(g, 0, 0);
  }

  /** Accepted ASTs are acyclic and get their static type; living ones were accepted before. */
  lemma {:induction false} GenSound(g: Graph, path: set<Ptr>, s: St, t: Ptr, named: bool)
    requires WellFormed(g) && (t == 0 || t in g) && CurOk(s) && LivingTyped(g, s.objects)
    ensures Sound(g, t, Gen(g, path, s, t, named))
    decreases |g.Keys - path|, 0
  {
    hide GenFields, GenTag, LoadFrom, Typed;
    if t == 0 {
      NullTyped(g);
    } else if t in s.objects {
      LoadFromAppends(s, if s.objects[t].place.Some? then s.objects[t].place.value else 0, |s.objects[t].ty|);
    } else if t !in path {
      var inner := path + {t};
      assert g.Keys - path == g.Keys - inner + {t};
      GenFieldsSound(g, inner, s, t, CompiledFields(g[t]), 0, []);
      var f := GenFields(g, inner, s, t, CompiledFields(g[t]), 0, []);
      if f.error.None? {
        GenTagSound(g, inner, f.st, t, named, |s.stack|, f.infos);
      }
    }
  }

  lemma {:induction false} GenFieldsSound(g: Graph, path: set<Ptr>, s: St, t: Ptr, fields: seq<Field>, i: nat,
      infos: seq<Info>)
    requires WellFormed(g) && t in g && CurOk(s) && t in path
    requires fields == CompiledFields(g[t]) && i <= |fields| && |infos| == i
    requires LivingTyped(g, s.objects) && FieldsTyped(g, fields, infos)
    ensures var f := GenFields(g, path, s, t, fields, i, infos);
      LivingTyped(g, f.st.objects) && FieldsTyped(g, fields, f.infos)
    decreases |g.Keys - path|, |fields| - i + 1
  {
    hide Gen, Typed;
    if i < |fields| {
      CompiledFieldsAreChildren(g[t], i);
      GenSound(g, path, s, fields[i].ptr, false);
      var r := Gen(g, path, s, fields[i].ptr, false);
      if r.res.Done? {
        if !(fields[i].want.Some? && !Fits(r.res.info.ty, fields[i].want.value)) {
          GenFieldsSound(g, path, r.st, t, fields, i + 1, infos + [r.res.info]);
        }
      }
    }
  }

  /** A node whose operands fit. */
  lemma NodeTyped(g: Graph, t: Ptr, d: nat, ty: Ty)
    requires WellFormed(g) && t in g && d > 0 && Within(g, d, t)
    requires forall c | c in Children(g[t]) :: Within(g, d - 1, c) && AllFit(g, d - 1, c)
    requires OperandsFit(g, d - 1, t) && TypeOf(g, d, t) == ty
    ensures Typed(g, t, ty)
  {
    hide OperandsFit, TypeOf, Within;
    assert AllFit(g, d, t);
  }

  lemma ArithTyped(g: Graph, t: Ptr, infos: seq<Info>)
    requires WellFormed(g) && t in g && g[t].Arith?
    requires |infos| == |CompiledFields(g[t])| && FieldsTyped(g, CompiledFields(g[t]), infos)
    ensures Typed(g, t, INT)
  {
    hide Typed, Fits, FieldsTyped, Within, AllFit, Fitting;
    forall c | c in Children(g[t]) ensures Fitting(g, c) {
      var i :| 0 <= i < |g[t].args| && g[t].args[i] == c;
      FieldTyped(g, CompiledFields(g[t]), infos, i);
    }
    var d := NodeDepth(g, t);
    forall c | c in Children(g[t]) ensures Fits(TypeOf(g, d - 1, c), INT) {
      var i :| 0 <= i < |g[t].args| && g[t].args[i] == c;
      FieldTyped(g, CompiledFields(g[t]), infos, i);
      TypedAt(g, c, infos[i].ty, d - 1);
    }
    NodeTyped(g, t, d, INT);
  }

  lemma PairTyped(g: Graph, t: Ptr, ty0: Ty, ty1: Ty)
    requires WellFormed(g) && t in g
    requires g[t].Concatenate? || (g[t].Store? && ty0 != [] && Fits(ty1, ty0))
    requires Typed(g, Children(g[t])[0], ty0) && Typed(g, Children(g[t])[1], ty1)
    ensures Typed(g, t, if g[t].Store? then [] else ty0 + ty1)
  {
    hide Typed, Fits, Within, AllFit, Fitting;
    var c0, c1 := Children(g[t])[0], Children(g[t])[1];
    TypedFits(g, c0, ty0);
    TypedFits(g, c1, ty1);
    var d := NodeDepth(g, t);
    assert c0 in Children(g[t]) && c1 in Children(g[t]);
    TypedAt(g, c0, ty0, d - 1);
    TypedAt(g, c1, ty1, d - 1);
    NodeTyped(g, t, d, if g[t].Store? then [] else ty0 + ty1);
  }

  lemma IfTyped(g: Graph, t: Ptr, cond: Ty, ty0: Ty, ty1: Ty)
    requires WellFormed(g) && t in g && g[t].If? && Fits(cond, INT)
    requires Typed(g, g[t].cond, cond) && Typed(g, g[t].thn, ty0) && Typed(g, g[t].els, ty1)
    ensures Typed(g, t, JoinTypes(ty0, ty1))
  {
    hide Typed, Fits, Within, AllFit, Fitting, JoinTypes;
    TypedFits(g, g[t].cond, cond);
    TypedFits(g, g[t].thn, ty0);
    TypedFits(g, g[t].els, ty1);
    var d := NodeDepth(g, t);
    assert g[t].cond in Children(g[t]) && g[t].thn in Children(g[t]) && g[t].els in Children(g[t]);
    TypedAt(g, g[t].cond, cond, d - 1);
    TypedAt(g, g[t].thn, ty0, d - 1);
    TypedAt(g, g[t].els, ty1, d - 1);
    NodeTyped(g, t, d, JoinTypes(ty0, ty1));
  }

  lemma SingleTyped(g: Graph, t: Ptr, ty: Ty)
    requires WellFormed(g) && t in g && (g[t].Label? || (g[t].RunFunction? && Fits(ty, [FunctionPointer])))
    requires Typed(g, Children(g[t])[0], ty)
    ensures Typed(g, t, if g[t].Label? then [] else [DynamicObject])
  {
    hide Typed, Fits, Within, AllFit, Fitting;
    TypedFits(g, Children(g[t])[0], ty);
    var d := NodeDepth(g, t);
    assert Children(g[t])[0] in Children(g[t]);
    TypedAt(g, Children(g[t])[0], ty, d - 1);
    NodeTyped(g, t, d, if g[t].Label? then [] else [DynamicObject]);
  }

  lemma LeafTyped(g: Graph, t: Ptr)
    requires WellFormed(g) && t in g && (g[t].Imv? || g[t].Goto?)
    ensures Typed(g, t, if g[t].Imv? then g[t].ty else [])
  {
    assert Within(g, 1, t);
    NodeTyped(g, t, 1, if g[t].Imv? then g[t].ty else []);
  }

  lemma BlockTyped(g: Graph, t: Ptr, last: Ty)
    requires WellFormed(g) && t in g && g[t].Block?
    requires forall c | c in g[t].elems :: Fitting(g, c)
    requires if g[t].elems == [] then last == [] else Typed(g, g[t].elems[|g[t].elems| - 1], last)
    ensures Typed(g, t, last)
  {
    hide Typed, Within, AllFit, Fitting;
    var d := NodeDepth(g, t);
    if g[t].elems != [] {
      assert g[t].elems[|g[t].elems| - 1] in g[t].elems;
      TypedAt(g, g[t].elems[|g[t].elems| - 1], last, d - 1);
    }
    NodeTyped(g, t, d, last);
  }

  lemma {:induction false} GenTagSound(g: Graph, path: set<Ptr>, s: St, t: Ptr, named: bool, base: nat, f: seq<Info>)
    requires WellFormed(g) && t in g && CurOk(s) && t in path
    requires |f| == |CompiledFields(g[t])| && FieldsTyped(g, CompiledFields(g[t]), f)
    requires LivingTyped(g, s.objects)
    ensures Sound(g, t, GenTag(g, path, s, t, named, base, f))
    decreases |g.Keys - path|, |Children(g[t])| + 2
  {
    hide Typed, Gen, Finish, EmitArith, EmitConcatenate, WritePlace, Within, TypeOf;
    match g[t]
    case Imv(ty, ws) =>
      LeafTyped(g, t);
      FinishSound(g, s, t, named, base, Lit(ws), ty);
    case Block(elems) => GenBlockSound(g, path, s, t, elems, 0, named, NULL_INFO);
    case Arith(op, _) =>
      var args := seq(|f|, i requires 0 <= i < |f| => f[i].ir);
      EmitArithObjects(s, op, args);
      ArithTyped(g, t, f);
      var (s1, x) := EmitArith(s, op, args);
      FinishSound(g, s1, t, named, base, x, INT);
    case If(c, thn, els) =>
      FieldTyped(g, CompiledFields(g[t]), f, 0);
      GenIfSound(g, path, s, t, named, base, f[0], thn, els);
    case Concatenate(_, _) =>
      FieldTyped(g, CompiledFields(g[t]), f, 0);
      FieldTyped(g, CompiledFields(g[t]), f, 1);
      PairTyped(g, t, f[0].ty, f[1].ty);
      if f[0].ty + f[1].ty == [] {
        FinishSound(g, s, t, named, base, Lit([]), []);
      } else {
        EmitConcatenateAppends(s, f[0], f[1]);
        var (s1, x) := EmitConcatenate(s, f[0], f[1]);
        FinishSound(g, s1, t, named, base, x, f[0].ty + f[1].ty);
      }
    case Store(_, _) =>
      FieldTyped(g, CompiledFields(g[t]), f, 0);
      FieldTyped(g, CompiledFields(g[t]), f, 1);
      if f[0].place.Some? && f[0].ty != [] && Fits(f[1].ty, f[0].ty) {
        PairTyped(g, t, f[0].ty, f[1].ty);
        WritePlaceAppends(s, f[0].place.value, f[1].ir, |f[1].ty|, 0);
        FinishSound(g, WritePlace(s, f[0].place.value, f[1].ir, |f[1].ty|, 0), t, named, base, Lit([]), []);
      }
    case Label(body) => GenLabelSound(g, path, s, t, named, base, body);
    case Goto(dest) =>
      LeafTyped(g, t);
      if dest in s.labels {
        var next := |s.fn.blocks|;
        var term := if s.labels[dest].isForward then Br(s.labels[dest].block)
                    else SpendFuel(s.labels[dest].block, next);
        FinishSound(g, Position(SetTerm(NewBlock(s), term), next), t, named, base, Lit([]), []);
      }
    case RunFunction(_) =>
      FieldTyped(g, CompiledFields(g[t]), f, 0);
      SingleTyped(g, t, f[0].ty);
      FinishSound(g, Emit(s, Call(s.regs, f[0].ir)).(regs := s.regs + 1), t, named, base, Reg(s.regs), [DynamicObject]);
  }

  lemma {:induction false} GenBlockSound(g: Graph, path: set<Ptr>, s: St, t: Ptr, elems: seq<Ptr>, i: nat, named: bool,
      last: Info)
    requires WellFormed(g) && t in g && CurOk(s) && t in path
    requires g[t] == Ast.Block(elems) && i <= |elems|
    requires LivingTyped(g, s.objects)
    requires forall c | c in elems[..i] :: Fitting(g, c)
    requires if i == 0 then last.ty == [] else Typed(g, elems[i - 1], last.ty)
    ensures Sound(g, t, GenBlock(g, path, s, t, elems, i, named, last))
    decreases |g.Keys - path|, |elems| - i + 1
  {
    hide Gen, LoadFrom, Within, TypeOf, AllFit, Typed, Fitting;
    if i == |elems| {
      assert elems[..i] == elems;
      BlockTyped(g, t, last.ty);
      LoadFromAppends(s, if last.place.Some? then last.place.value else 0, |last.ty|);
    } else {
      assert elems[i] in Children(g[t]);
      GenSound(g, path, s, elems[i], true);
      var r := Gen(g, path, s, elems[i], true);
      if r.res.Done? {
        assert elems[..i + 1] == elems[..i] + [elems[i]];
        TypedFits(g, elems[i], r.res.info.ty);
        GenBlockSound(g, path, r.st, t, elems, i + 1, named, r.res.info);
      }
    }
  }

  lemma IfTailSound(g: Graph, s: St, t: Ptr, named: bool, base: nat, ty: Ty, v0: Operand, b0: nat, v1: Operand, b1: nat)
    requires CurOk(s) && LivingTyped(g, s.objects) && Typed(g, t, ty)
    ensures Sound(g, t, IfTail(s, t, named, base, ty, v0, b0, v1, b1))
  {
    hide Typed, Finish, LivingTyped, Sound;
    if ty == [] {
      FinishSound(g, s, t, named, base, Lit([]), []);
    } else {
      FinishSound(g, Emit(s, Phi(s.regs, v0, b0, v1, b1)).(regs := s.regs + 1), t, named, base, Reg(s.regs), ty);
    }
  }

  lemma HeadTyped(g: Graph, s: St, cond: Operand)
    requires CurOk(s) && LivingTyped(g, s.objects)
    ensures LivingTyped(g, IfHead(s, cond).objects)
  {
    hide Typed;
  }

  lemma EndTyped(g: Graph, s: St, scope: nat, merge: nat, next: nat)
    requires CurOk(s) && next < |s.fn.blocks| && LivingTyped(g, s.objects)
    ensures LivingTyped(g, BranchEnd(s, scope, merge, next).objects)
  {
    hide Typed;
  }

  lemma {:induction false} GenIfSound(g: Graph, path: set<Ptr>, s: St, t: Ptr, named: bool, base: nat, cond: Info,
      thn: Ptr, els: Ptr)
    requires WellFormed(g) && t in g && CurOk(s) && t in path
    requires g[t].If? && thn == g[t].thn && els == g[t].els
    requires LivingTyped(g, s.objects) && Typed(g, g[t].cond, cond.ty) && Fits(cond.ty, INT)
    ensures Sound(g, t, GenIf(g, path, s, t, named, base, cond.ir, thn, els))
    decreases |g.Keys - path|, 1
  {
    hide Gen, Typed, Finish, IfTail, JoinTypes, Fits, IfHead, BranchEnd, LivingTyped;
    assert thn in Children(g[t]) && els in Children(g[t]);
    var scope, merge := |s.stack|, |s.fn.blocks|;
    var h := IfHead(s, cond.ir);
    HeadTyped(g, s, cond.ir);
    GenSound(g, path, h, thn, false);
    var r0 := Gen(g, path, h, thn, false);
    if r0.res.Done? {
      var h1 := BranchEnd(r0.st, scope, merge, merge + 2);
      EndTyped(g, r0.st, scope, merge, merge + 2);
      GenSound(g, path, h1, els, false);
      var r1 := Gen(g, path, h1, els, false);
      if r1.res.Done? {
        EndTyped(g, r1.st, scope, merge, merge);
        IfTyped(g, t, cond.ty, r0.res.info.ty, r1.res.info.ty);
        IfTailSound(g, BranchEnd(r1.st, scope, merge, merge), t, named, base, JoinTypes(r0.res.info.ty, r1.res.info.ty),
          r0.res.info.ir, r0.st.cur, r1.res.info.ir, r1.st.cur);
      }
    }
  }

  lemma {:induction false} GenLabelSound(g: Graph, path: set<Ptr>, s: St, t: Ptr, named: bool, base: nat, body: Ptr)
    requires WellFormed(g) && t in g && CurOk(s) && t in path
    requires g[t] == Label(body)
    requires LivingTyped(g, s.objects)
    ensures Sound(g, t, GenLabel(g, path, s, t, named, base, body))
    decreases |g.Keys - path|, 1
  {
    hide Gen, Typed, Finish;
    assert body in Children(g[t]);
    var block := |s.fn.blocks|;
    var s1 := NewBlock(s);
    if t !in s.labels {
      var s2 := s1.(labels := s1.labels[t := LabelInfo(block, base, true)]);
      GenSound(g, path, s2, body, false);
      var r := Gen(g, path, s2, body, false);
      if r.res.Done? {
        SingleTyped(g, t, r.res.info.ty);
        FinishSound(g, LabelEnd(r.st, t, block, base), t, named, base, Lit([]), []);
      }
    }
  }

  // ---------------------------------------------------------------- infinite loops

  ghost predicate NotLoop(o: Out) {
    o.res.Failed? ==> o.res.code != InfiniteLoop
  }

  /** Everything that is being compiled is too deep for the depth in hand. */
  ghost predicate PathAbove(g: Graph, path: set<Ptr>, depth: nat)
    requires WellFormed(g)
  {
    forall x | x in path :: x in g && !Within(g, depth, x)
  }

  ghost predicate ChildrenWithin(g: Graph, t: Ptr, depth: nat)
    requires WellFormed(g) && t in g
  {
    forall c | c in Children(g[t]) :: Within(g, depth, c)
  }

  lemma {:induction false} LeastDepth(g: Graph, t: Ptr, d: nat) returns (m: nat)
    requires WellFormed(g) && t in g && Within(g, d, t)
    ensures 0 < m <= d && Within(g, m, t) && !Within(g, m - 1, t)
    decreases d
  {
    if Within(g, d - 1, t) { m := LeastDepth(g, t, d - 1); } else { m := d; }
  }

  lemma Descend(g: Graph, path: set<Ptr>, t: Ptr, d: nat) returns (d': nat)
    requires WellFormed(g) && t in g && Within(g, d, t) && PathAbove(g, path, d)
    ensures t !in path && PathAbove(g, path + {t}, d') && ChildrenWithin(g, t, d')
  {
    var m := LeastDepth(g, t, d);
    d' := m - 1;
    forall x | x in path ensures !Within(g, d', x) {
      if Within(g, d', x) { WithinMonotone(g, d', d, x); }
    }
  }

  /** An acyclic AST is never rejected as an infinite loop, whatever else is wrong with it. */
  lemma {:induction false} GenNoLoop(g: Graph, path: set<Ptr>, s: St, t: Ptr, named: bool, d: nat)
    requires WellFormed(g) && (t == 0 || t in g) && CurOk(s)
    requires Within(g, d, t) && PathAbove(g, path, d)
    ensures NotLoop(Gen(g, path, s, t, named))
    decreases |g.Keys - path|, 0
  {
    hide GenFields, GenTag, LoadFrom;
    if t != 0 && t !in s.objects {
      var d' := Descend(g, path, t, d);
      hide PathAbove, Within, ChildrenWithin;
      var inner := path + {t};
      assert g.Keys - path == g.Keys - inner + {t};
      GenFieldsNoLoop(g, inner, s, t, CompiledFields(g[t]), 0, [], d');
      var f := GenFields(g, inner, s, t, CompiledFields(g[t]), 0, []);
      if f.error.None? {
        GenTagNoLoop(g, inner, f.st, t, named, |s.stack|, f.infos, d');
      }
    }
  }

  lemma {:induction false} GenFieldsNoLoop(g: Graph, path: set<Ptr>, s: St, t: Ptr, fields: seq<Field>, i: nat,
      infos: seq<Info>, d: nat)
    requires WellFormed(g) && t in g && CurOk(s) && t in path
    requires fields == CompiledFields(g[t]) && i <= |fields| && |infos| == i
    requires ChildrenWithin(g, t, d) && PathAbove(g, path, d)
    ensures var f := GenFields(g, path, s, t, fields, i, infos);
      f.error.Some? ==> NotLoop(Out(f.st, f.error.value))
    decreases |g.Keys - path|, |fields| - i + 1
  {
    hide Gen, PathAbove;
    if i < |fields| {
      CompiledFieldsAreChildren(g[t], i);
      GenNoLoop(g, path, s, fields[i].ptr, false, d);
      var r := Gen(g, path, s, fields[i].ptr, false);
      if r.res.Done? {
        GenFieldsNoLoop(g, path, r.st, t, fields, i + 1, infos + [r.res.info], d);
      }
    }
  }

  lemma {:induction false} GenTagNoLoop(g: Graph, path: set<Ptr>, s: St, t: Ptr, named: bool, base: nat, f: seq<Info>,
      d: nat)
    requires WellFormed(g) && t in g && CurOk(s) && t in path
    requires |f| == |CompiledFields(g[t])|
    requires ChildrenWithin(g, t, d) && PathAbove(g, path, d)
    ensures NotLoop(GenTag(g, path, s, t, named, base, f))
    decreases |g.Keys - path|, |Children(g[t])| + 2
  {
    hide Gen, PathAbove, ChildrenWithin, EmitArith, EmitConcatenate, WritePlace, NewLiving, ClearStack, GenBlock, GenIf,
      GenLabel, Emit, Fits;
    match g[t]
    case Block(elems) => GenBlockNoLoop(g, path, s, t, elems, 0, named, NULL_INFO, d);
    case If(_, thn, els) => GenIfNoLoop(g, path, s, t, named, base, f[0].ir, thn, els, d);
    case Label(body) => GenLabelNoLoop(g, path, s, t, named, base, body, d);
    case _ =>
  }

  lemma {:induction false} GenIfNoLoop(g: Graph, path: set<Ptr>, s: St, t: Ptr, named: bool, base: nat, cond: Operand,
      thn: Ptr, els: Ptr, d: nat)
    requires WellFormed(g) && t in g && CurOk(s) && t in path && g[t].If? && thn == g[t].thn && els == g[t].els
    requires ChildrenWithin(g, t, d) && PathAbove(g, path, d)
    ensures NotLoop(GenIf(g, path, s, t, named, base, cond, thn, els))
    decreases |g.Keys - path|, 1
  {
    hide Gen, PathAbove;
    assert thn in Children(g[t]) && els in Children(g[t]);
    var scope, merge := |s.stack|, |s.fn.blocks|;
    var h := IfHead(s, cond);
    GenNoLoop(g, path, h, thn, false, d);
    var r0 := Gen(g, path, h, thn, false);
    if r0.res.Done? {
      GenNoLoop(g, path, BranchEnd(r0.st, scope, merge, merge + 2), els, false, d);
    }
  }

  lemma {:induction false} GenLabelNoLoop(g: Graph, path: set<Ptr>, s: St, t: Ptr, named: bool, base: nat, body: Ptr,
      d: nat)
    requires WellFormed(g) && t in g && CurOk(s) && t in path && g[t] == Label(body)
    requires ChildrenWithin(g, t, d) && PathAbove(g, path, d)
    ensures NotLoop(GenLabel(g, path, s, t, named, base, body))
    decreases |g.Keys - path|, 1
  {
    hide Gen, PathAbove, LabelEnd;
    assert body in Children(g[t]);
    if t !in s.labels {
      var s1 := NewBlock(s);
      GenNoLoop(g, path, s1.(labels := s1.labels[t := LabelInfo(|s.fn.blocks|, base, true)]), body, false, d);
    }
  }

  lemma {:induction false} GenBlockNoLoop(g: Graph, path: set<Ptr>, s: St, t: Ptr, elems: seq<Ptr>, i: nat, named: bool,
      last: Info, d: nat)
    requires WellFormed(g) && t in g && CurOk(s) && t in path
    requires g[t] == Ast.Block(elems) && i <= |elems|
    requires ChildrenWithin(g, t, d) && PathAbove(g, path, d)
    ensures NotLoop(GenBlock(g, path, s, t, elems, i, named, last))
    decreases |g.Keys - path|, |elems| - i + 1
  {
    hide Gen, LoadFrom, PathAbove;
    if i < |elems| {
      assert elems[i] in Children(g[t]);
      GenNoLoop(g, path, s, elems[i], true, d);
      var r := Gen(g, path, s, elems[i], true);
      if r.res.Done? {
        GenBlockNoLoop(g, path, r.st, t, elems, i + 1, named, r.res.info, d);
      }
    }
  }

  /** A whole compilation: acyclic graphs never give an infinite-loop error, and accepted
      graphs are acyclic, all their operands fit, and they are of their static type. */
  lemma CompileLoops(g: Graph, t: Ptr)
    requires WellFormed(g) && t in g
    ensures Acyclic(g, t) ==> !(CompileAst(g, t).Rejected? && CompileAst(g, t).code == InfiniteLoop)
    ensures CompileAst(g, t).Accepted? ==> Acyclic(g, t) && Typed(g, t, CompileAst(g, t).ty)
  {
    GenSound(g, {}, Entry(), t, false);
    if Acyclic(g, t) {
      var d: nat :| Within(g, d, t);
      GenNoLoop(g, {}, Entry(), t, false, d);
    }
  }

  // ---------------------------------------------------------------- what is accepted

  /** Nothing whose acceptance depends on the scope it is in: no stores, labels and gotos. */
  ghost predicate ScopeFree(g: Graph) {
    forall p | p in g :: !g[p].Store? && !g[p].Label? && !g[p].Goto?
  }

  ghost predicate ChildrenFit(g: Graph, t: Ptr, d: nat)
    requires WellFormed(g) && t in g
  {
    ChildrenWithin(g, t, d) && OperandsFit(g, d, t) && forall c | c in Children(g[t]) :: AllFit(g, d, c)
  }

  lemma DescendFit(g: Graph, path: set<Ptr>, t: Ptr, d: nat) returns (d': nat)
    requires WellFormed(g) && t in g && Within(g, d, t) && AllFit(g, d, t) && PathAbove(g, path, d)
    ensures t !in path && PathAbove(g, path + {t}, d') && ChildrenFit(g, t, d')
  {
    hide PathAbove, OperandsFit;
    d' := Descend(g, path, t, d);
    AllFitStable(g, d, d' + 1, t);
  }

  lemma WantFits(g: Graph, t: Ptr, d: nat, i: nat)
    requires WellFormed(g) && t in g && ChildrenFit(g, t, d) && i < |CompiledFields(g[t])|
    ensures var field := CompiledFields(g[t])[i];
      && field.ptr in Children(g[t]) && Within(g, d, field.ptr) && AllFit(g, d, field.ptr)
      && (field.want.Some? ==> Fits(TypeOf(g, d, field.ptr), field.want.value))
  {
    hide TypeOf, Within, AllFit, Fits;
    CompiledFieldsAreChildren(g[t], i);
    if g[t].Arith? { assert g[t].args[i] in g[t].args; }
  }

  /** An AST whose operands fit is accepted in every scope. */
  lemma {:induction false} GenDone(g: Graph, path: set<Ptr>, s: St, t: Ptr, named: bool, d: nat)
    requires WellFormed(g) && ScopeFree(g) && (t == 0 || t in g) && CurOk(s) && LivingTyped(g, s.objects)
    requires Within(g, d, t) && AllFit(g, d, t) && PathAbove(g, path, d)
    ensures Gen(g, path, s, t, named).res.Done?
    decreases |g.Keys - path|, 0
  {
    hide GenFields, GenTag, LoadFrom, LivingTyped;
    if t != 0 && t !in s.objects {
      var d' := DescendFit(g, path, t, d);
      hide PathAbove, Within, ChildrenFit, AllFit;
      var inner := path + {t};
      assert g.Keys - path == g.Keys - inner + {t};
      GenFieldsDone(g, inner, s, t, CompiledFields(g[t]), 0, [], d');
      var f := GenFields(g, inner, s, t, CompiledFields(g[t]), 0, []);
      GenTagDone(g, inner, f.st, t, named, |s.stack|, f.infos, d');
    }
  }

  lemma {:induction false} GenFieldsDone(g: Graph, path: set<Ptr>, s: St, t: Ptr, fields: seq<Field>, i: nat,
      infos: seq<Info>, d: nat)
    requires WellFormed(g) && ScopeFree(g) && t in g && CurOk(s) && t in path && LivingTyped(g, s.objects)
    requires fields == CompiledFields(g[t]) && i <= |fields| && |infos| == i
    requires ChildrenFit(g, t, d) && PathAbove(g, path, d)
    ensures var f := GenFields(g, path, s, t, fields, i, infos); f.error.None? && LivingTyped(g, f.st.objects)
    decreases |g.Keys - path|, |fields| - i + 1
  {
    hide Gen, PathAbove, LivingTyped, ScopeFree, ChildrenFit, AllFit, Fits, Typed;
    if i < |fields| {
      WantFits(g, t, d, i);
      GenDone(g, path, s, fields[i].ptr, false, d);
      GenSound(g, path, s, fields[i].ptr, false);
      var r := Gen(g, path, s, fields[i].ptr, false);
      TypedAt(g, fields[i].ptr, r.res.info.ty, d);
      GenFieldsDone(g, path, r.st, t, fields, i + 1, infos + [r.res.info], d);
    }
  }

  lemma {:induction false} GenTagDone(g: Graph, path: set<Ptr>, s: St, t: Ptr, named: bool, base: nat, f: seq<Info>,
      d: nat)
    requires WellFormed(g) && ScopeFree(g) && t in g && CurOk(s) && t in path && LivingTyped(g, s.objects)
    requires |f| == |CompiledFields(g[t])|
    requires ChildrenFit(g, t, d) && PathAbove(g, path, d)
    ensures GenTag(g, path, s, t, named, base, f).res.Done?
    decreases |g.Keys - path|, |Children(g[t])| + 2
  {
    hide Gen, PathAbove, ChildrenFit, EmitArith, EmitConcatenate, WritePlace, NewLiving, ClearStack, GenBlock, GenIf,
      GenLabel, Emit, Fits, LivingTyped;
    match g[t]
    case Block(elems) => GenBlockDone(g, path, s, t, elems, 0, named, NULL_INFO, d);
    case If(_, thn, els) => GenIfDone(g, path, s, t, named, base, f[0].ir, thn, els, d);
    case _ =>
  }

  lemma {:induction false} GenIfDone(g: Graph, path: set<Ptr>, s: St, t: Ptr, named: bool, base: nat, cond: Operand,
      thn: Ptr, els: Ptr, d: nat)
    requires WellFormed(g) && ScopeFree(g) && t in g && CurOk(s) && t in path && LivingTyped(g, s.objects)
    requires g[t].If? && thn == g[t].thn && els == g[t].els
    requires ChildrenFit(g, t, d) && PathAbove(g, path, d)
    ensures GenIf(g, path, s, t, named, base, cond, thn, els).res.Done?
    decreases |g.Keys - path|, 1
  {
    hide Gen, PathAbove, OperandsFit, AllFit, ScopeFree, IfTail, Typed;
    assert thn in Children(g[t]) && els in Children(g[t]);
    var scope, merge := |s.stack|, |s.fn.blocks|;
    var h := IfHead(s, cond);
    GenDone(g, path, h, thn, false, d);
    GenSound(g, path, h, thn, false);
    var r0 := Gen(g, path, h, thn, false);
    GenDone(g, path, BranchEnd(r0.st, scope, merge, merge + 2), els, false, d);
  }

  lemma {:induction false} GenBlockDone(g: Graph, path: set<Ptr>, s: St, t: Ptr, elems: seq<Ptr>, i: nat, named: bool,
      last: Info, d: nat)
    requires WellFormed(g) && ScopeFree(g) && t in g && CurOk(s) && t in path && LivingTyped(g, s.objects)
    requires g[t] == Ast.Block(elems) && i <= |elems|
    requires ChildrenFit(g, t, d) && PathAbove(g, path, d)
    ensures GenBlock(g, path, s, t, elems, i, named, last).res.Done?
    decreases |g.Keys - path|, |elems| - i + 1
  {
    hide Gen, LoadFrom, PathAbove, OperandsFit, AllFit, ScopeFree, LivingTyped, Typed;
    if i < |elems| {
      assert elems[i] in Children(g[t]);
      GenDone(g, path, s, elems[i], true, d);
      GenSound(g, path, s, elems[i], true);
      var r := Gen(g, path, s, elems[i], true);
      GenBlockDone(g, path, r.st, t, elems, i + 1, named, r.res.info, d);
    }
  }

  /** Without stores, labels and gotos, what is accepted is exactly what is acyclic and has
      operands that fit all the way down. */
  lemma AcceptedIffFitting(g: Graph, t: Ptr)
    requires WellFormed(g) && ScopeFree(g) && t in g
    ensures CompileAst(g, t).Accepted? <==> Fitting(g, t)
  {
    hide Gen, ScopeFree, AllFit, Within;
    if CompileAst(g, t).Accepted? {
      CompileLoops(g, t);
      TypedFits(g, t, CompileAst(g, t).ty);
    }
    if Fitting(g, t) {
      var d: nat :| Within(g, d, t) && AllFit(g, d, t);
      GenDone(g, {}, Entry(), t, false, d);
    }
  }
}
