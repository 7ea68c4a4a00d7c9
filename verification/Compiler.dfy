/**
 `compiler_object`: the compiler's state and the methods that change it in place. Each method
 is proved to do what the functions of CodeGen say.
 */
module Compiler {
  import opened Options
  import opened Words
  import opened IR
  import opened Ast
  import opened CodeGen
  import opened Scopes

  lemma ScopePops(stack: seq<Ptr>, objects: map<Ptr, Info>)
    requires ScopeOk(stack, objects) && |stack| > 0
    ensures stack[|stack| - 1] in objects && ScopeOk(stack[..|stack| - 1], objects - {stack[|stack| - 1]})
  {
    var n, x := |stack| - 1, stack[|stack| - 1];
    assert stack == stack[..n] + [x];
    assert x !in stack[..n] by { assert forall i | 0 <= i < n :: stack[..n][i] == stack[i] != stack[n]; }
  }

  /** There may be nothing to clear. */
  lemma ClearAll(s: St, n: nat)
    ensures |s.stack| <= n ==> CodeGen.ClearStack(s, n) == s
    ensures CodeGen.ClearStack(s, |s.stack|) == s
  {
  }

  lemma ClearOneMore(s: St, k: nat)
    requires k < |s.stack|
    ensures var a, b := CodeGen.ClearStack(s, k + 1), CodeGen.ClearStack(s, k);
      b == a.(stack := a.stack[..k], objects := a.objects - {a.stack[k]})
  {
    assert s.stack[k..] == [s.stack[k]] + s.stack[k + 1..];
  }

  /** The second branch of an `if` and the merge, from the end of the first branch. */
  function ElsePart(g: Graph, path: set<Ptr>, s: St, t: Ptr, named: bool, base: nat, scope: nat, merge: nat, thn: Info,
      els: Ptr): Out
    requires WellFormed(g) && (els == 0 || els in g) && CurOk(s) && merge + 2 < |s.fn.blocks|
  {
    var r1 := Gen(g, path, BranchEnd(s, scope, merge, merge + 2), els, false);
    if r1.res.Failed? then r1
    else IfTail(BranchEnd(r1.st, scope, merge, merge), t, named, base, JoinTypes(thn.ty, r1.res.info.ty),
                thn.ir, s.cur, r1.res.info.ir, r1.st.cur)
  }

  lemma GenIfParts(g: Graph, path: set<Ptr>, s: St, t: Ptr, named: bool, base: nat, cond: Operand, thn: Ptr, els: Ptr)
    requires WellFormed(g) && t in g && Valid(s) && t in path
    requires g[t].If? && thn == g[t].thn && els == g[t].els && (thn == 0 || thn in g) && (els == 0 || els in g)
    ensures CurOk(s) && var r0 := Gen(g, path, IfHead(s, cond), thn, false);
      && |s.fn.blocks| + 2 < |r0.st.fn.blocks|
      && GenIf(g, path, s, t, named, base, cond, thn, els) ==
        if r0.res.Failed? then r0
        else ElsePart(g, path, r0.st, t, named, base, |s.stack|, |s.fn.blocks|, r0.res.info, els)
  {
    hide Gen, IfTail, BranchEnd, JoinTypes;
  }

  class CompilerObject {
    var fn: Fn
    var cur: nat
    var regs: nat
    var objects: map<Ptr, Info>
    var objectStack: seq<Ptr>
    var loopCatcher: set<Ptr>
    var labels: map<Ptr, LabelInfo>
    var order: seq<nat>

    constructor ()
      ensures State() == Entry() && loopCatcher == {}
    {
      fn, cur, regs := Fn([IR.Block([], None)], []), 0, 0;
      objects, objectStack, loopCatcher, labels, order := map[], [], {}, map[], [0];
    }

    function State(): St
      reads this
    {
      St(fn, cur, regs, objects, objectStack, labels, order)
    }

    /** The builder emits; only `generate_IR` and the scope methods touch the rest. */
    method Build(s: St)
      modifies this
      ensures State() == s && loopCatcher == old(loopCatcher)
    {
      fn, cur, regs := s.fn, s.cur, s.regs;
      objects, objectStack, labels, order := s.objects, s.stack, s.labels, s.order;
    }

    /** Pops the scope stack, erasing each popped AST from the map; each is there to erase. */
    method ClearStack(desired: nat)
      requires ScopeOk(objectStack, objects)
      modifies this
      ensures State() == CodeGen.ClearStack(old(State()), desired)
      ensures ScopeOk(objectStack, objects) && loopCatcher == old(loopCatcher)
    {
      hide ScopeOk, CodeGen.ClearStack;
      ghost var s := State();
      ClearAll(s, desired);
      while |objectStack| > desired
        invariant ScopeOk(objectStack, objects) && loopCatcher == old(loopCatcher)
        invariant |s.stack| <= desired ==> State() == s
        invariant |s.stack| > desired ==> desired <= |objectStack| <= |s.stack|
        invariant |s.stack| > desired ==> State() == CodeGen.ClearStack(s, |objectStack|)
      {
        var last := |objectStack| - 1;
        var toBeRemoved := objectStack[last];
        ScopePops(objectStack, objects);
        ClearOneMore(s, last);
        objectStack := objectStack[..last];
        objects := objects - {toBeRemoved};
      }
    }

    /** An AST that is already living keeps its entry. */
    method NewLivingObject(target: Ptr, r: Info)
      modifies this
      ensures State() == NewLiving(old(State()), target, r) && loopCatcher == old(loopCatcher)
    {
      if target !in objects {
        objects := objects[target := r];
        objectStack := objectStack + [target];
      }
    }

    /** The end of `generate_IR` for one AST. */
    method FinishInternal(target: Ptr, named: bool, base: nat, ir: Operand, ty: Ty) returns (r: Res)
      requires CurOk(State()) && ScopeOk(objectStack, objects)
      modifies this
      ensures var o := Finish(old(State()), target, named, base, ir, ty); State() == o.st && r == o.res
      ensures loopCatcher == old(loopCatcher)
    {
      if named { ClearStack(base); }
      if ty == [] { return Done(NULL_INFO); }
      var info := Info(ty, ir, None);
      if named {
        var slot := |fn.slots|;
        info := Info(ty, Lit([]), Some(slot));
        var s := State();
        Build(WritePlace(s.(fn := s.fn.(slots := s.fn.slots + [|ty|])), slot, ir, |ty|, 0));
      }
      NewLivingObject(target, info);
      r := Done(info);
    }

    /** Compiles one AST and everything it depends on. The loop catcher holds the ASTs in
        progress, and is restored on every exit. */
    method GenerateIR(g: Graph, target: Ptr, named: bool) returns (r: Res)
      requires WellFormed(g) && (target == 0 || target in g) && Valid(State())
      modifies this
      ensures var o := Gen(g, old(loopCatcher), old(State()), target, named); State() == o.st && r == o.res
      ensures Valid(State()) && loopCatcher == old(loopCatcher)
      decreases |g.Keys - loopCatcher|, 0
    {
      hide PathNotLiving, Grows, GenTag, GenFields, LoadFrom, ObjectsOk, LabelsOk;
      ghost var s0, path := State(), loopCatcher;
      GenKeeps(g, path, s0, target, named);
      if target == 0 { return Done(NULL_INFO); }
      if target in objects {
        var info := objects[target];
        if info.place.Some? {
          var (s1, x) := LoadFrom(State(), info.place.value, |info.ty|);
          Build(s1);
          info := info.(ir := x);
        }
        return Done(info);
      }
      if target in loopCatcher { return Failed(InfiniteLoop, target, 10); }
      loopCatcher := loopCatcher + {target};
      assert g.Keys - path == g.Keys - loopCatcher + {target};
      var base := |objectStack|;
      BetweenRefl(loopCatcher, s0);
      var error, infos := GenerateFields(g, target, s0);
      if error.Some? {
        r := error.value;
      } else {
        r := GenerateTag(g, target, named, base, infos, s0);
      }
      loopCatcher := loopCatcher - {target};
      assert loopCatcher == path;
    }

    /** Compiles and checks the fields in order, up to the first that fails. */
    method GenerateFields(g: Graph, target: Ptr, ghost s0: St) returns (error: Option<Res>, infos: seq<Info>)
      requires WellFormed(g) && target in g && target in loopCatcher && Valid(State())
      requires Between(loopCatcher, s0, State())
      modifies this
      ensures var f := GenFields(g, old(loopCatcher), old(State()), target, CompiledFields(g[target]), 0, []);
        State() == f.st && error == f.error && infos == f.infos
      ensures loopCatcher == old(loopCatcher)
      ensures Between(loopCatcher, s0, State()) && InfosOk(State(), infos)
      decreases |g.Keys - loopCatcher|, |Children(g[target])| + 5
    {
      assert CurOk(State());
      hide Valid, Gen, PathNotLiving, Grows;
      ghost var s, path := State(), loopCatcher;
      var fields := CompiledFields(g[target]);
      GenFieldsKeeps(g, path, s0, s, target, fields, 0, []);
      error, infos := None, [];
      var i := 0;
      while i < |fields|
        invariant i <= |fields| && |infos| == i
        invariant loopCatcher == path && Valid(State()) && CurOk(State()) && CurOk(s)
        invariant GenFields(g, path, s, target, fields, 0, []) == GenFields(g, path, State(), target, fields, i, infos)
      {
        CompiledFieldsAreChildren(g[target], i);
        var r := GenerateIR(g, fields[i].ptr, false);
        ValidCur(State());
        if r.Failed? {
          error := Some(r);
          return;
        }
        if fields[i].want.Some? && !Fits(r.info.ty, fields[i].want.value) {
          error := Some(Failed(TypeMismatch, target, i));
          return;
        }
        infos := infos + [r.info];
        i := i + 1;
      }
    }

    /** A goto, to a label that is still ahead or back through the fuel check. */
    method GenerateGoto(target: Ptr, named: bool, base: nat, dest: Ptr) returns (r: Res)
      requires Valid(State())
      modifies this
      ensures var o := GenGoto(old(State()), target, named, base, dest); State() == o.st && r == o.res
      ensures loopCatcher == old(loopCatcher)
    {
      hide ScopeOk, ObjectsOk, Finish;
      if dest !in labels { return Failed(MissingLabel, target, 0); }
      var next := |fn.blocks|;
      var term := if labels[dest].isForward then Br(labels[dest].block) else SpendFuel(labels[dest].block, next);
      Build(Position(SetTerm(NewBlock(State()), term), next));
      r := FinishInternal(target, named, base, Lit([]), []);
    }

    /** The switch on the tag. */
    method GenerateTag(g: Graph, target: Ptr, named: bool, base: nat, f: seq<Info>, ghost s0: St) returns (r: Res)
      requires WellFormed(g) && target in g && target in loopCatcher && Valid(State())
      requires |f| == |CompiledFields(g[target])| && InfosOk(State(), f)
      requires Between(loopCatcher, s0, State()) && base == |s0.stack|
      modifies this
      ensures var o := GenTag(g, old(loopCatcher), old(State()), target, named, base, f); State() == o.st && r == o.res
      ensures loopCatcher == old(loopCatcher)
      decreases |g.Keys - loopCatcher|, |Children(g[target])| + 4
    {
      hide PathNotLiving, Grows, ScopeOk, ObjectsOk, LabelsOk, Finish, GenBlock, GenIf, GenLabel, GenGoto, EmitArith,
        EmitConcatenate, WritePlace, Fits;
      ghost var s := State();
      match g[target] {
        case Imv(ty, ws) => r := FinishInternal(target, named, base, Lit(ws), ty);
        case Block(elems) => r := GenerateBlock(g, target, elems, named);
        case Arith(op, _) =>
          EmitArithGrows(s, op, seq(|f|, i requires 0 <= i < |f| => f[i].ir));
          var (s1, x) := EmitArith(State(), op, seq(|f|, i requires 0 <= i < |f| => f[i].ir));
          Build(s1);
          r := FinishInternal(target, named, base, x, INT);
        case If(_, thn, els) => r := GenerateIf(g, target, named, base, f[0].ir, thn, els);
        case Concatenate(_, _) =>
          if f[0].ty + f[1].ty == [] {
            r := FinishInternal(target, named, base, Lit([]), []);
          } else {
            EmitConcatenateAppends(s, f[0], f[1]);
            var (s1, x) := EmitConcatenate(State(), f[0], f[1]);
            Build(s1);
            r := FinishInternal(target, named, base, x, f[0].ty + f[1].ty);
          }
        case Store(_, _) =>
          if f[0].ty == [] { return Failed(TypeMismatch, target, 0); }
          if !Fits(f[1].ty, f[0].ty) { return Failed(TypeMismatch, target, 1); }
          if f[0].place.None? { return Failed(MissingReference, target, 0); }
          WritePlaceAppends(s, f[0].place.value, f[1].ir, |f[1].ty|, 0);
          Build(WritePlace(State(), f[0].place.value, f[1].ir, |f[1].ty|, 0));
          r := FinishInternal(target, named, base, Lit([]), []);
        case Label(body) => r := GenerateLabel(g, target, named, base, body, s0);
        case Goto(dest) => r := GenerateGoto(target, named, base, dest);
        case RunFunction(_) =>
          var callee := Reg(regs);
          Build(Emit(State(), Call(regs, f[0].ir)).(regs := regs + 1));
          r := FinishInternal(target, named, base, callee, [DynamicObject]);
      }
    }

    /** The elements of a basic block, in order; its value is that of the last. */
    method GenerateBlock(g: Graph, target: Ptr, elems: seq<Ptr>, named: bool) returns (r: Res)
      requires WellFormed(g) && target in g && target in loopCatcher && Valid(State())
      requires g[target] == Ast.Block(elems)
      modifies this
      ensures var o := GenBlock(g, old(loopCatcher), old(State()), target, elems, 0, named, NULL_INFO);
        State() == o.st && r == o.res
      ensures loopCatcher == old(loopCatcher)
      decreases |g.Keys - loopCatcher|, 3
    {
      ghost var s, path := State(), loopCatcher;
      ValidCur(s);
      hide Valid, Gen, LoadFrom;
      var last := NULL_INFO;
      var i := 0;
      while i < |elems|
        invariant i <= |elems| && loopCatcher == path && Valid(State()) && CurOk(State()) && CurOk(s)
        invariant GenBlock(g, path, s, target, elems, 0, named, NULL_INFO) ==
          GenBlock(g, path, State(), target, elems, i, named, last)
      {
        assert elems[i] in Children(g[target]);
        r := GenerateIR(g, elems[i], true);
        ValidCur(State());
        if r.Failed? { return; }
        last := r.info;
        i := i + 1;
      }
      if !named && last.place.Some? {
        var (s1, x) := LoadFrom(State(), last.place.value, |last.ty|);
        Build(s1);
        last := last.(ir := x);
      }
      r := Done(last);
    }

    /** Both branches, each in the scope of the condition; an error leaves at once. */
    method GenerateIf(g: Graph, target: Ptr, named: bool, base: nat, cond: Operand, thn: Ptr, els: Ptr) returns (r: Res)
      requires WellFormed(g) && target in g && target in loopCatcher && Valid(State())
      requires g[target].If? && thn == g[target].thn && els == g[target].els
      modifies this
      ensures var o := GenIf(g, old(loopCatcher), old(State()), target, named, base, cond, thn, els);
        State() == o.st && r == o.res
      ensures loopCatcher == old(loopCatcher)
      decreases |g.Keys - loopCatcher|, 2
    {
      assert thn in Children(g[target]) && els in Children(g[target]);
      ghost var s := State();
      FirstBranch(g, loopCatcher, s, cond, thn);
      GenIfParts(g, loopCatcher, s, target, named, base, cond, thn, els);
      hide Valid, Gen, GenIf, IfHead, ElsePart, BranchDone, WellFormed, Children;
      var scope, merge := |objectStack|, |fn.blocks|;
      Build(IfHead(State(), cond));
      assert State() == IfHead(s, cond);
      var r0 := GenerateIR(g, thn, false);
      if r0.Failed? { return r0; }
      r := GenerateElse(g, target, named, base, scope, merge, r0.info, els, s);
    }

    /** The second branch of an `if`, and the merge. */
    method GenerateElse(g: Graph, target: Ptr, named: bool, base: nat, scope: nat, merge: nat, thn: Info, els: Ptr,
        ghost s: St) returns (r: Res)
      requires WellFormed(g) && target in g && (els == 0 || els in g) && target in loopCatcher
      requires CurOk(State()) && merge + 2 < |fn.blocks|
      requires BranchDone(s, State()) && scope == |s.stack| && merge == |s.fn.blocks|
      modifies this
      ensures var o := ElsePart(g, old(loopCatcher), old(State()), target, named, base, scope, merge, thn, els);
        State() == o.st && r == o.res
      ensures loopCatcher == old(loopCatcher)
      decreases |g.Keys - loopCatcher|, 1
    {
      hide Valid, Gen, IfHead, BranchEnd, IfTail, InfoOk, JoinTypes, WellFormed, ScopeOk, BranchDone;
      ghost var r0 := State();
      SecondBranch(g, loopCatcher, s, r0, els);
      var end0 := cur;
      Build(BranchEnd(State(), scope, merge, merge + 2));
      assert State() == BranchEnd(r0, scope, merge, merge + 2);
      r := GenerateIR(g, els, false);
      if r.Failed? { return; }
      ValidCur(State());
      var end1 := cur;
      Build(BranchEnd(State(), scope, merge, merge));
      ValidCur(State());
      r := FinishIf(target, named, base, JoinTypes(thn.ty, r.info.ty), thn.ir, end0, r.info.ir, end1);
    }

    /** The merge block: a phi of the two values, unless the result is null. */
    method FinishIf(target: Ptr, named: bool, base: nat, ty: Ty, x0: Operand, from0: nat, x1: Operand, from1: nat)
        returns (r: Res)
      requires CurOk(State()) && ScopeOk(objectStack, objects)
      modifies this
      ensures var o := IfTail(old(State()), target, named, base, ty, x0, from0, x1, from1);
        State() == o.st && r == o.res
      ensures loopCatcher == old(loopCatcher)
    {
      if ty == [] {
        r := FinishInternal(target, named, base, Lit([]), []);
      } else {
        var phi := Reg(regs);
        Build(Emit(State(), Phi(regs, x0, from0, x1, from1)).(regs := regs + 1));
        r := FinishInternal(target, named, base, phi, ty);
      }
    }

    method GenerateLabel(g: Graph, target: Ptr, named: bool, base: nat, body: Ptr, ghost s0: St) returns (r: Res)
      requires WellFormed(g) && target in g && target in loopCatcher && Valid(State())
      requires g[target] == Label(body)
      requires Between(loopCatcher, s0, State()) && base == |s0.stack|
      modifies this
      ensures var o := GenLabel(g, old(loopCatcher), old(State()), target, named, base, body);
        State() == o.st && r == o.res
      ensures loopCatcher == old(loopCatcher)
      decreases |g.Keys - loopCatcher|, 2
    {
      assert body in Children(g[target]);
      ghost var s, path := State(), loopCatcher;
      hide ScopeOk, ObjectsOk, PathNotLiving, Gen, Finish;
      var block := |fn.blocks|;
      NewBlockKeeps(path, s0, s);
      Build(NewBlock(State()));
      if target in labels { return Failed(LabelDuplication, target, 0); }
      labels := labels[target := LabelInfo(block, base, true)];
      ghost var s1 := State();
      GenKeeps(g, path, s1, body, false);
      r := GenerateIR(g, body, false);
      if r.Failed? { return; }
      Build(LabelEnd(State(), target, block, base));
      r := FinishInternal(target, named, base, Lit([]), []);
    }

    /** `compile_AST`: the finished function, or the first error. */
    method CompileAST(g: Graph, target: Ptr) returns (c: Compiled)
      requires WellFormed(g) && (target == 0 || target in g)
      requires State() == Entry() && loopCatcher == {}
      modifies this
      ensures c == CompileAst(g, target)
      ensures loopCatcher == {}
    {
      if target == 0 { return Rejected(NullAst, 0, 0); }
      var r := GenerateIR(g, target, false);
      if r.Failed? { return Rejected(r.code, r.at, r.field); }
      c := Accepted(SetTerm(State(), Ret(r.info.ir)).fn, r.info.ty);
    }
  }
}
