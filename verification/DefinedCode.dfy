/**
 Accepted code defines every register before it is used, when labels are elements of blocks and
 nothing but blocks and labels has a label below it.
 */
module DefinedCode {
  import opened Options
  import opened Words
  import opened IR
  import opened Ast
  import opened CodeGen
  import opened Scopes
  import opened Defined

  /** Nodes without labels, and all that is below them. */
  ghost predicate LabelFree(g: Graph, plain: set<Ptr>) {
    forall p | p in plain :: p in g && !g[p].Label? && forall c | c in Children(g[p]) :: c == 0 || c in plain
  }

  /** All other nodes are blocks and labels, and no label is right below a label. */
  ghost predicate Tame(g: Graph, plain: set<Ptr>) {
    && LabelFree(g, plain)
    && forall p | p in g && p !in plain :: g[p].Block? || (g[p].Label? && BodyTame(g, plain, g[p].body))
  }

  ghost predicate BodyTame(g: Graph, plain: set<Ptr>, body: Ptr) {
    body == 0 || body in plain || (body in g && g[body].Block?)
  }

  ghost predicate FieldsKnown(s: St, a: Notes, infos: seq<Info>)
    requires CurOk(s) && s.cur in a.blocks
  {
    forall i | 0 <= i < |infos| :: OperandIs(a, Here(s, a), infos[i].ir, |infos[i].ty|)
  }

  ghost predicate FieldsSized(fields: seq<Field>, infos: seq<Info>) {
    |infos| <= |fields| && forall i | 0 <= i < |infos| && fields[i].want.Some? ::
      |infos[i].ty| == |fields[i].want.value|
  }

  lemma FieldsGrew(s: St, a: Notes, s': St, a': Notes, open: set<nat>, infos: seq<Info>)
    requires CurOk(s) && s.cur in a.blocks && Grew(s, a, s', a', open) && FieldsKnown(s, a, infos)
    ensures CurOk(s') && s'.cur in a'.blocks && FieldsKnown(s', a', infos)
  {
    hide MoreCode, MoreNotes, OperandIs, Here, CodeFits;
    forall i | 0 <= i < |infos| ensures OperandIs(a', Here(s', a'), infos[i].ir, |infos[i].ty|) {
      OperandGrew(s, a, s', a', open, infos[i].ir, |infos[i].ty|);
    }
  }

  /** Made from a state that s grew to. */
  lemma MadeTrans(s: St, a: Notes, s1: St, a1: Notes, o: Out, a2: Notes, open: set<nat>, named: bool)
    requires CurOk(s) && s.cur in a.blocks && CurOk(s1) && s1.cur in a1.blocks
    requires Grew(s, a, s1, a1, open) && Made(s1, a1, o, a2, open, named)
    ensures Made(s, a, o, a2, open, named)
  {
    hide Known, MoreCode, MoreNotes, OperandIs, Here;
    KnownCur(o.st, a2, open);
    GrewTrans(s, a, s1, a1, o.st, a2, open);
  }

  lemma LookupKnown(s: St, a: Notes, open: set<nat>, info: Info) returns (a': Notes)
    requires Known(s, a, open) && ScopeKnown(s, a) && InfoOk(s, info) && info.place.Some?
    ensures var (s', x) := LoadFrom(s, info.place.value, |info.ty|);
      Made(s, a, Out(s', Done(info.(ir := x))), a', open, false)
  {
    hide Known, MoreCode, MoreNotes, OperandIs, Here, LoadFrom;
    KnownCur(s, a, open);
    a' := LoadFromKnown(s, a, open, info.place.value, |info.ty|);
    var s' := LoadFrom(s, info.place.value, |info.ty|).0;
    LoadFromAppends(s, info.place.value, |info.ty|);
    KnownCur(s', a', open);
    ScopeGrew(s, a, s', a', open);
  }

  /** An accepted AST without labels. */
  lemma {:induction false} GenDefined(g: Graph, plain: set<Ptr>, path: set<Ptr>, s: St, a: Notes, open: set<nat>,
      t: Ptr, named: bool) returns (a': Notes)
    requires WellFormed(g) && LabelFree(g, plain) && (t == 0 || t in plain)
    requires Valid(s) && Known(s, a, open) && ScopeKnown(s, a) && Gen(g, path, s, t, named).res.Done?
    ensures Made(s, a, Gen(g, path, s, t, named), a', open, named)
    decreases |g.Keys - path|, 0
  {
    hide Known, MoreCode, MoreNotes, OperandIs, Here, GenFields, GenTag, LoadFrom, Valid;
    KnownCur(s, a, open);
    GrewRefl(s, a, open);
    if t == 0 {
      a' := a;
      NullOperand(a, Here(s, a));
    } else if t in s.objects {
      a' := LivingMade(s, a, open, t, named);
    } else {
      var inner := path + {t};
      assert g.Keys - path == g.Keys - inner + {t};
      var fields := CompiledFields(g[t]);
      var f := GenFields(g, inner, s, t, fields, 0, []);
      var a1 := GenFieldsDefined(g, plain, inner, s, a, s, a, open, t, fields, 0, []);
      BetweenRefl(inner, s);
      GenFieldsKeeps(g, inner, s, s, t, fields, 0, []);
      KnownCur(f.st, a1, open);
      a' := GenTagDefined(g, plain, inner, f.st, a1, open, t, named, |s.stack|, f.infos);
      MadeTrans(s, a, f.st, a1, GenTag(g, inner, f.st, t, named, |s.stack|, f.infos), a', open, named);
    }
  }

  lemma LivingMade(s: St, a: Notes, open: set<nat>, t: Ptr, named: bool) returns (a': Notes)
    requires Known(s, a, open) && ScopeKnown(s, a) && Valid(s) && t in s.objects
    ensures var info := s.objects[t];
      if info.place.Some? then
        var (s', x) := LoadFrom(s, info.place.value, |info.ty|);
        Made(s, a, Out(s', Done(info.(ir := x))), a', open, named)
      else Made(s, a, Out(s, Done(info)), a', open, named)
  {
    hide Known, MoreCode, MoreNotes, OperandIs, Here, LoadFrom;
    KnownCur(s, a, open);
    var info := s.objects[t];
    assert InfoOk(s, info) && Usable(s, a, info);
    if info.place.Some? {
      a' := LookupKnown(s, a, open, info);
    } else {
      a' := a;
      GrewRefl(s, a, open);
    }
  }

  lemma {:induction false} GenFieldsDefined(g: Graph, plain: set<Ptr>, path: set<Ptr>, s0: St, a0: Notes, s: St,
      a: Notes, open: set<nat>, t: Ptr, fields: seq<Field>, i: nat, infos: seq<Info>) returns (a': Notes)
    requires WellFormed(g) && LabelFree(g, plain) && t in plain && t in g && t in path
    requires fields == CompiledFields(g[t]) && i <= |fields| && |infos| == i
    requires CurOk(s0) && s0.cur in a0.blocks && Valid(s) && Known(s, a, open) && ScopeKnown(s, a)
    requires Grew(s0, a0, s, a, open) && FieldsKnown(s, a, infos) && FieldsSized(fields, infos)
    requires GenFields(g, path, s, t, fields, i, infos).error.None?
    ensures var f := GenFields(g, path, s, t, fields, i, infos);
      && Known(f.st, a', open) && Grew(s0, a0, f.st, a', open) && ScopeKnown(f.st, a')
      && FieldsKnown(f.st, a', f.infos) && FieldsSized(fields, f.infos)
    decreases |g.Keys - path|, |fields| - i + 1
  {
    hide Known, MoreCode, MoreNotes, OperandIs, Here, Gen, Valid, ScopeKnown, FieldsKnown;
    if i == |fields| {
      a' := a;
    } else {
      CompiledFieldsAreChildren(g[t], i);
      KnownCur(s, a, open);
      var r := Gen(g, path, s, fields[i].ptr, false);
      var a1 := GenDefined(g, plain, path, s, a, open, fields[i].ptr, false);
      GenKeeps(g, path, s, fields[i].ptr, false);
      MadeKnown(s, a, r, a1, open, false);
      FieldsGrew(s, a, r.st, a1, open, infos);
      GrewTrans(s0, a0, s, a, r.st, a1, open);
      OneMoreField(r.st, a1, infos, r.res.info);
      a' := GenFieldsDefined(g, plain, path, s0, a0, r.st, a1, open, t, fields, i + 1, infos + [r.res.info]);
    }
  }

  lemma OneMoreField(s: St, a: Notes, infos: seq<Info>, info: Info)
    requires CurOk(s) && s.cur in a.blocks && FieldsKnown(s, a, infos) && Result(s, a, info, false)
    ensures FieldsKnown(s, a, infos + [info])
  {
    hide OperandIs, Here;
  }

  /** The part that depends on the tag. */
  lemma {:induction false} GenTagDefined(g: Graph, plain: set<Ptr>, path: set<Ptr>, s: St, a: Notes, open: set<nat>,
      t: Ptr, named: bool, base: nat, f: seq<Info>) returns (a': Notes)
    requires WellFormed(g) && LabelFree(g, plain) && t in plain && t in g && t in path
    requires |f| == |CompiledFields(g[t])|
    requires Valid(s) && Known(s, a, open) && ScopeKnown(s, a) && FieldsKnown(s, a, f) && InfosOk(s, f)
    requires FieldsSized(CompiledFields(g[t]), f) && GenTag(g, path, s, t, named, base, f).res.Done?
    ensures Made(s, a, GenTag(g, path, s, t, named, base, f), a', open, named)
    decreases |g.Keys - path|, |Children(g[t])| + 2
  {
    hide Known, MoreCode, MoreNotes, OperandIs, Here, Gen, Valid, ScopeKnown, Grew, Made, Finish, EmitArith,
      EmitConcatenate, WritePlace, GenBlock, GenIf, GenGoto, InfoOk;
    KnownCur(s, a, open);
    match g[t]
    case Imv(ty, ws) =>
      assert OperandIs(a, Here(s, a), Lit(ws), |ty|) by { LitOperand(a, Here(s, a), ws); }
      a' := FinishKnown(s, a, open, t, named, base, Lit(ws), ty);
    case Block(elems) =>
      GrewRefl(s, a, open);
      NullOperand(a, Here(s, a));
      NullInfoOk(s);
      a' := GenBlockDefined(g, plain, path, s, a, s, a, open, t, elems, 0, named, NULL_INFO);
    case Arith(op, _) => a' := ArithDefined(s, a, open, t, named, base, op, f);
    case If(_, thn, els) =>
      assert OperandIs(a, Here(s, a), f[0].ir, 1);
      a' := GenIfDefined(g, plain, path, s, a, open, t, named, base, f[0].ir, thn, els);
    case Concatenate(_, _) => a' := PairDefined(s, a, open, t, named, base, f[0], f[1]);
    case Store(_, _) => a' := StoreDefined(s, a, open, t, named, base, f[0], f[1]);
    case Goto(dest) => a' := GotoDefined(s, a, open, t, named, base, dest);
    case RunFunction(_) =>
      assert OperandIs(a, Here(s, a), f[0].ir, 1);
      a' := CallDefined(s, a, open, t, named, base, f[0].ir);
  }

  lemma LitOperand(a: Notes, d: set<nat>, ws: seq<Word>)
    ensures OperandIs(a, d, Lit(ws), |ws|)
  {
  }

  /** Ends an AST after code that only computes. */
  lemma FinishAfter(s: St, a: Notes, s1: St, a1: Notes, open: set<nat>, t: Ptr, named: bool, base: nat, ir: Operand,
      ty: Ty) returns (a': Notes)
    requires CurOk(s) && s.cur in a.blocks && ScopeKnown(s, a) && Grew(s, a, s1, a1, open) && CurOk(s1)
    requires s1.objects == s.objects && s1.labels == s.labels
    requires s1.cur in a1.blocks && OperandIs(a1, Here(s1, a1), ir, |ty|)
    ensures Made(s, a, Finish(s1, t, named, base, ir, ty), a', open, named)
  {
    hide Known, MoreCode, MoreNotes, OperandIs, Here, Finish, ScopeKnown, Result;
    ScopeGrew(s, a, s1, a1, open);
    a' := FinishKnown(s1, a1, open, t, named, base, ir, ty);
    MadeTrans(s, a, s1, a1, Finish(s1, t, named, base, ir, ty), a', open, named);
  }

  lemma ArithDefined(s: St, a: Notes, open: set<nat>, t: Ptr, named: bool, base: nat, op: ArithOp, f: seq<Info>)
      returns (a': Notes)
    requires Known(s, a, open) && ScopeKnown(s, a) && FieldsKnown(s, a, f) && |f| == Arity(op) && Valid(s)
    requires forall i | 0 <= i < |f| :: |f[i].ty| == 1
    ensures var (s1, x) := EmitArith(s, op, seq(|f|, i requires 0 <= i < |f| => f[i].ir));
      Made(s, a, Finish(s1, t, named, base, x, INT), a', open, named)
  {
    hide Known, MoreCode, MoreNotes, OperandIs, Here, Finish, EmitArith, Valid, ScopeKnown;
    KnownCur(s, a, open);
    var args := seq(|f|, i requires 0 <= i < |f| => f[i].ir);
    forall i | 0 <= i < |args| ensures OperandIs(a, Here(s, a), args[i], 1) {
      assert OperandIs(a, Here(s, a), f[i].ir, |f[i].ty|);
    }
    var a1 := EmitArithKnown(s, a, open, op, args);
    var (s1, x) := EmitArith(s, op, args);
    EmitArithGrows(s, op, args);
    KnownCur(s1, a1, open);
    a' := FinishAfter(s, a, s1, a1, open, t, named, base, x, INT);
  }

  lemma PairDefined(s: St, a: Notes, open: set<nat>, t: Ptr, named: bool, base: nat, x: Info, y: Info)
      returns (a': Notes)
    requires Known(s, a, open) && ScopeKnown(s, a)
    requires OperandIs(a, Here(s, a), x.ir, |x.ty|) && OperandIs(a, Here(s, a), y.ir, |y.ty|)
    ensures
      if x.ty + y.ty == [] then Made(s, a, Finish(s, t, named, base, Lit([]), []), a', open, named)
      else
        var (s1, z) := EmitConcatenate(s, x, y);
        Made(s, a, Finish(s1, t, named, base, z, x.ty + y.ty), a', open, named)
  {
    hide Known, MoreCode, MoreNotes, OperandIs, Here, Finish, EmitConcatenate, ScopeKnown;
    KnownCur(s, a, open);
    if x.ty + y.ty == [] {
      NullOperand(a, Here(s, a));
      a' := FinishKnown(s, a, open, t, named, base, Lit([]), []);
    } else {
      var a1 := ConcatenateKnown(s, a, open, x, y);
      var (s1, z) := EmitConcatenate(s, x, y);
      EmitConcatenateAppends(s, x, y);
      KnownCur(s1, a1, open);
      a' := FinishAfter(s, a, s1, a1, open, t, named, base, z, x.ty + y.ty);
    }
  }

  lemma StoreDefined(s: St, a: Notes, open: set<nat>, t: Ptr, named: bool, base: nat, x: Info, y: Info)
      returns (a': Notes)
    requires Known(s, a, open) && ScopeKnown(s, a) && InfoOk(s, x) && x.place.Some? && Fits(y.ty, x.ty)
    requires OperandIs(a, Here(s, a), y.ir, |y.ty|)
    ensures var s1 := WritePlace(s, x.place.value, y.ir, |y.ty|, 0);
      Made(s, a, Finish(s1, t, named, base, Lit([]), []), a', open, named)
  {
    hide Known, MoreCode, MoreNotes, OperandIs, Here, Finish, WritePlace, ScopeKnown;
    KnownCur(s, a, open);
    var a1 := WritePlaceKnown(s, a, open, x.place.value, y.ir, |y.ty|, 0);
    var s1 := WritePlace(s, x.place.value, y.ir, |y.ty|, 0);
    WritePlaceAppends(s, x.place.value, y.ir, |y.ty|, 0);
    KnownCur(s1, a1, open);
    NullOperand(a1, Here(s1, a1));
    a' := FinishAfter(s, a, s1, a1, open, t, named, base, Lit([]), []);
  }

  lemma CallDefined(s: St, a: Notes, open: set<nat>, t: Ptr, named: bool, base: nat, callee: Operand)
      returns (a': Notes)
    requires Known(s, a, open) && ScopeKnown(s, a) && OperandIs(a, Here(s, a), callee, 1)
    ensures var s1 := Emit(s, Call(s.regs, callee)).(regs := s.regs + 1);
      Made(s, a, Finish(s1, t, named, base, Reg(s.regs), [DynamicObject]), a', open, named)
  {
    hide Known, MoreCode, MoreNotes, Here, Finish, ScopeKnown;
    KnownCur(s, a, open);
    var s1, a1 := Emit(s, Call(s.regs, callee)).(regs := s.regs + 1), WithReg(a, s.regs, 1);
    OperandWith(s, a, open, Here(s, a), callee, 1, 1);
    EmitReg(s, a, open, Call(s.regs, callee), 1);
    KnownCur(s1, a1, open);
    a' := FinishAfter(s, a, s1, a1, open, t, named, base, Reg(s.regs), [DynamicObject]);
  }

  /** Nothing has to be defined at the label, so control may go there from anywhere. */
  lemma GotoDefined(s: St, a: Notes, open: set<nat>, t: Ptr, named: bool, base: nat, dest: Ptr) returns (a': Notes)
    requires Known(s, a, open) && ScopeKnown(s, a) && GenGoto(s, t, named, base, dest).res.Done?
    ensures Made(s, a, GenGoto(s, t, named, base, dest), a', open, named)
  {
    hide Known, MoreCode, MoreNotes, OperandIs, Finish, DefsEnd;
    KnownCur(s, a, open);
    var next, l := |s.fn.blocks|, s.labels[dest];
    var term := if l.isForward then Br(l.block) else SpendFuel(l.block, next);
    var note := Note(Here(s, a), None, None);
    var s1, a1 := NewBlock(s), WithBlock(a, next, note);
    NewBlockKnown(s, a, open, note);
    KnownCur(s1, a1, open + {next});
    assert LabelKnown(a, l);
    assert l.block in a1.blocks && a1.blocks[l.block] == Note({}, None, None) && a1.blocks[next] == note;
    assert TermFits(s1.fn, a1, s1.cur, term);
    hide TermFits, ScopeKnown, Here;
    MoveKnown(s1, a1, open + {next}, term, next);
    var s2 := Position(SetTerm(s1, term), next);
    KnownLess(s2, a1, open + {next} - {next}, open);
    MoreCodeTrans(s.fn, s1.fn, s2.fn);
    KnownCur(s2, a1, open);
    NullOperand(a1, Here(s2, a1));
    a' := FinishAfter(s, a, s2, a1, open, t, named, base, Lit([]), []);
  }

  /** The elements of a block. */
  lemma {:induction false} GenBlockDefined(g: Graph, plain: set<Ptr>, path: set<Ptr>, s0: St, a0: Notes, s: St,
      a: Notes, open: set<nat>, t: Ptr, elems: seq<Ptr>, i: nat, named: bool, last: Info) returns (a': Notes)
    requires WellFormed(g) && LabelFree(g, plain) && t in plain && t in g && t in path
    requires g[t] == Ast.Block(elems) && i <= |elems|
    requires CurOk(s0) && s0.cur in a0.blocks && Valid(s) && Known(s, a, open) && ScopeKnown(s, a)
    requires Grew(s0, a0, s, a, open) && Usable(s, a, last) && InfoOk(s, last)
    requires GenBlock(g, path, s, t, elems, i, named, last).res.Done?
    ensures Made(s0, a0, GenBlock(g, path, s, t, elems, i, named, last), a', open, named)
    decreases |g.Keys - path|, |elems| - i + 1
  {
    hide Known, MoreCode, MoreNotes, OperandIs, Here, Gen, Valid, LoadFrom, ScopeKnown, Grew, InfoOk;
    KnownCur(s, a, open);
    if i == |elems| {
      a' := BlockEndDefined(s, a, open, named, last);
      MadeTrans(s0, a0, s, a, GenBlock(g, path, s, t, elems, i, named, last), a', open, named);
    } else {
      assert elems[i] in Children(g[t]);
      var r := Gen(g, path, s, elems[i], true);
      var a1 := GenDefined(g, plain, path, s, a, open, elems[i], true);
      GenKeeps(g, path, s, elems[i], true);
      MadeKnown(s, a, r, a1, open, true);
      GrewTrans(s0, a0, s, a, r.st, a1, open);
      a' := GenBlockDefined(g, plain, path, s0, a0, r.st, a1, open, t, elems, i + 1, named, r.res.info);
    }
  }

  lemma MadeKnown(s: St, a: Notes, o: Out, a': Notes, open: set<nat>, named: bool)
    requires CurOk(s) && s.cur in a.blocks && Made(s, a, o, a', open, named)
    ensures Known(o.st, a', open) && CurOk(o.st) && o.st.cur in a'.blocks && Grew(s, a, o.st, a', open)
    ensures ScopeKnown(o.st, a') && Usable(o.st, a', o.res.info)
    ensures !named ==> OperandIs(a', Here(o.st, a'), o.res.info.ir, |o.res.info.ty|)
  {
    hide CodeFits, MoreCode, MoreNotes, OperandIs, Here, ScopeKnown;
  }

  lemma BlockEndDefined(s: St, a: Notes, open: set<nat>, named: bool, last: Info) returns (a': Notes)
    requires Known(s, a, open) && ScopeKnown(s, a) && Usable(s, a, last) && InfoOk(s, last)
    ensures if !named && last.place.Some? then
        var (s1, x) := LoadFrom(s, last.place.value, |last.ty|);
        Made(s, a, Out(s1, Done(last.(ir := x))), a', open, named)
      else Made(s, a, Out(s, Done(last)), a', open, named)
  {
    hide Known, MoreCode, MoreNotes, OperandIs, Here, LoadFrom, ScopeKnown;
    KnownCur(s, a, open);
    if !named && last.place.Some? {
      a' := LookupKnown(s, a, open, last);
    } else {
      a' := a;
      GrewRefl(s, a, open);
    }
  }

  lemma NullInfoOk(s: St)
    ensures InfoOk(s, NULL_INFO)
  {
  }

  /** The notes on the merge block and the second branch of an `if`. */
  ghost predicate Merges(b: Notes, n: nat, d: set<nat>, from: set<nat>) {
    && n in b.blocks && b.blocks[n] == Note(d, Some(from), None)
    && n + 2 in b.blocks && b.blocks[n + 2] == Note(d, None, None)
  }

  /** The branches of an `if` that was started in s are open. */
  ghost predicate IfOpened(s: St, a: Notes, h: St, b: Notes, open: set<nat>, from: set<nat>)
    requires CurOk(s) && s.cur in a.blocks
  {
    var n := |s.fn.blocks|;
    && Grew(s, a, h, b, open + {n, n + 2}) && ScopeKnown(h, b) && h.objects == s.objects && h.labels == s.labels
    && Merges(b, n, Here(h, b), from)
  }

  lemma IfHeadDefined(s: St, a: Notes, open: set<nat>, cond: Operand, from: set<nat>) returns (b: Notes)
    requires Known(s, a, open) && ScopeKnown(s, a) && OperandIs(a, Here(s, a), cond, 1)
    ensures IfOpened(s, a, IfHead(s, cond), b, open, from)
  {
    hide Known, MoreCode, MoreNotes, OperandIs, BranchOn, ScopeKnown, EmitCompute, Here, CurOk;
    KnownCur(s, a, open);
    var n := |s.fn.blocks|;
    var (s1, c) := EmitCompute(s, NE, cond, Lit([0]));
    LitOperand(a, Here(s, a), [0]);
    var a1 := ComputeKnown(s, a, open, NE, cond, Lit([0]));
    KnownCur(s1, a1, open);
    ComputeScope(s, NE, cond, Lit([0]));
    var h := BranchOn(s1, c);
    b := BranchNotes(a1, n, Here(s1, a1), from, None);
    BranchOnKnown(s1, a1, open, c, from, None);
    BranchScope(s1, c);
    KnownLess(s1, a1, open, open + {n, n + 2});
    KnownCur(h, b, open + {n, n + 2});
    GrewTrans(s, a, s1, a1, h, b, open + {n, n + 2});
    ScopeGrew(s, a, h, b, open + {n, n + 2});
  }

  lemma ComputeScope(s: St, op: BinOp, x: Operand, y: Operand)
    requires CurOk(s)
    ensures var s1 := EmitCompute(s, op, x, y).0;
      s1.objects == s.objects && s1.labels == s.labels && |s1.fn.blocks| == |s.fn.blocks|
  {
  }

  lemma BranchScope(s: St, cond: Operand)
    requires CurOk(s)
    ensures BranchOn(s, cond).objects == s.objects && BranchOn(s, cond).labels == s.labels
  {
  }

  /** The end of a branch, with the scope as it was before. */
  lemma BranchEndDefined(h: St, b: Notes, r: St, b1: Notes, open: set<nat>, scope: nat, merge: nat, next: nat)
    requires CurOk(h) && h.cur in b.blocks && ScopeKnown(h, b)
    requires Known(r, b1, open) && ScopeKnown(r, b1) && Grew(h, b, r, b1, open)
    requires merge in b.blocks && b.blocks[merge].defs == Here(h, b) && b.blocks[merge].guard.None?
    requires b.blocks[merge].from.Some? && r.cur in b.blocks[merge].from.value
    requires next in b.blocks && b.blocks[next].defs == Here(h, b)
    requires next < |r.fn.blocks| && next != r.cur && r.fn.blocks[next] == IR.Block([], None)
    requires ClearStack(r, scope).objects == h.objects
    ensures var e := BranchEnd(r, scope, merge, next);
      && Known(e, b1, open - {next}) && MoreCode(r.fn, e.fn) && Here(e, b1) == Here(h, b) && ScopeKnown(e, b1)
  {
    hide Known, MoreCode, OperandIs, DefsEnd;
    KnownCur(r, b1, open);
    var c, e := ClearStack(r, scope), BranchEnd(r, scope, merge, next);
    ClearKnown(r, b1, open, scope);
    assert c.fn == r.fn && c.cur == r.cur && c.labels == r.labels;
    KnownCur(c, b1, open);
    assert Here(c, b1) == Here(r, b1);
    JumpKnown(c, b1, open, merge, next);
    KnownCur(e, b1, open - {next});
    hide Here;
    forall x | x in e.objects ensures Usable(e, b1, e.objects[x]) {
      assert Usable(h, b, h.objects[x]);
      if e.objects[x].place.None? {
        OperandMore(b, b1, Here(h, b), Here(e, b1), e.objects[x].ir, |e.objects[x].ty|);
      }
    }
  }

  /** A branch was compiled from h on, in the scope that s had. */
  ghost predicate ArmDone(s: St, h: St, r: St) {
    && Valid(r) && |s.stack| <= |r.stack| && ClearStack(r, |s.stack|).objects == h.objects
  }

  lemma ArmScope(s: St, h: St, r: St)
    requires Valid(s) && Valid(r) && Grows(s, r) && h.objects == s.objects
    ensures ArmDone(s, h, r)
  {
    hide Valid;
    assert ScopeOk(s.stack, s.objects) && ScopeOk(r.stack, r.objects) by { ValidCur(s); ValidCur(r); }
    ClearStackRestores(s, r, |s.stack|);
  }

  /** A branch was compiled from h on, and ended: the state e has the scope of s again. */
  ghost predicate ArmEnded(s: St, h: St, b: Notes, r: Out, b1: Notes, e: St, open: set<nat>, open': set<nat>)
    requires CurOk(h) && h.cur in b.blocks
  {
    && Made(h, b, r, b1, open, false)
    && Known(e, b1, open') && MoreCode(r.st.fn, e.fn) && Here(e, b1) == Here(h, b) && ScopeKnown(e, b1)
    && e.objects == s.objects
  }

  lemma OpenedKnown(s: St, a: Notes, h: St, b: Notes, open: set<nat>, from: set<nat>)
    requires CurOk(s) && s.cur in a.blocks && IfOpened(s, a, h, b, open, from)
    ensures CurOk(h) && h.cur in b.blocks && Known(h, b, open + {|s.fn.blocks|, |s.fn.blocks| + 2}) && ScopeKnown(h, b)
    ensures Grew(s, a, h, b, open + {|s.fn.blocks|, |s.fn.blocks| + 2}) && h.objects == s.objects
    ensures Merges(b, |s.fn.blocks|, Here(h, b), from)
  {
    hide CodeFits, MoreCode, MoreNotes, Here, ScopeKnown;
  }

  lemma {:induction false} ThenDefined(g: Graph, plain: set<Ptr>, path: set<Ptr>, s: St, open: set<nat>,
      cond: Operand, thn: Ptr, h: St, b: Notes, r: Out, e: St) returns (b1: Notes)
    requires WellFormed(g) && LabelFree(g, plain) && (thn == 0 || thn in plain) && Valid(s)
    requires CurOk(s) && h == IfHead(s, cond) && h.objects == s.objects && CurOk(h) && h.cur in b.blocks
    requires Known(h, b, open + {|s.fn.blocks|, |s.fn.blocks| + 2}) && ScopeKnown(h, b)
    requires r == Gen(g, path, h, thn, false) && r.res.Done? && CurOk(r.st) && |s.fn.blocks| + 2 < |r.st.fn.blocks|
    requires e == BranchEnd(r.st, |s.stack|, |s.fn.blocks|, |s.fn.blocks| + 2)
    requires MergeFits(b, |s.fn.blocks|, |s.fn.blocks| + 2, Here(h, b), r.st.cur)
    ensures ArmEnded(s, h, b, r, b1, e, open + {|s.fn.blocks|, |s.fn.blocks| + 2}, open + {|s.fn.blocks|})
    decreases |g.Keys - path|, 1
  {
    hide Known, MoreCode, MoreNotes, OperandIs, Here, Gen, Valid, ScopeKnown, Grew, InfoOk, IfHead, BranchEnd, Grows;
    var n := |s.fn.blocks|;
    FirstBranch(g, path, s, cond, thn);
    b1 := GenDefined(g, plain, path, h, b, open + {n, n + 2}, thn, false);
    MadeKnown(h, b, r, b1, open + {n, n + 2}, false);
    ArmScope(s, h, r.st);
    BranchEndDefined(h, b, r.st, b1, open + {n, n + 2}, |s.stack|, n, n + 2);
    KnownLess(e, b1, open + {n, n + 2} - {n + 2}, open + {n});
    EndObjects(r.st, |s.stack|, n, n + 2);
    KnownCur(e, b1, open + {n});
  }

  /** The notes on where a branch goes to, and on the block that comes next. */
  ghost predicate MergeFits(b: Notes, merge: nat, next: nat, d: set<nat>, arm: nat) {
    && merge in b.blocks && b.blocks[merge].defs == d && b.blocks[merge].guard.None?
    && b.blocks[merge].from.Some? && arm in b.blocks[merge].from.value
    && next in b.blocks && b.blocks[next].defs == d
  }

  lemma EndObjects(r: St, scope: nat, merge: nat, next: nat)
    requires CurOk(r) && next < |r.fn.blocks|
    ensures var e := BranchEnd(r, scope, merge, next);
      e.objects == ClearStack(r, scope).objects && e.cur == next && |e.fn.blocks| == |r.fn.blocks|
  {
  }

  lemma {:induction false} ElseDefined(g: Graph, plain: set<Ptr>, path: set<Ptr>, s: St, open: set<nat>, r0: St,
      els: Ptr, h: St, b: Notes, r: Out, e: St) returns (b1: Notes)
    requires WellFormed(g) && LabelFree(g, plain) && (els == 0 || els in plain) && BranchDone(s, r0)
    requires CurOk(r0) && |s.fn.blocks| + 2 < |r0.fn.blocks|
    requires h == BranchEnd(r0, |s.stack|, |s.fn.blocks|, |s.fn.blocks| + 2)
    requires CurOk(h) && h.cur in b.blocks && h.objects == s.objects
    requires Known(h, b, open + {|s.fn.blocks|}) && ScopeKnown(h, b)
    requires r == Gen(g, path, h, els, false) && r.res.Done? && CurOk(r.st) && |s.fn.blocks| < |r.st.fn.blocks|
    requires e == BranchEnd(r.st, |s.stack|, |s.fn.blocks|, |s.fn.blocks|)
    requires MergeFits(b, |s.fn.blocks|, |s.fn.blocks|, Here(h, b), r.st.cur)
    ensures ArmEnded(s, h, b, r, b1, e, open + {|s.fn.blocks|}, open) && r.st.cur != r0.cur
    decreases |g.Keys - path|, 1
  {
    hide Known, MoreCode, MoreNotes, OperandIs, Here, Gen, Valid, ScopeKnown, Grew, InfoOk, BranchEnd, Grows;
    var n := |s.fn.blocks|;
    SecondBranch(g, path, s, r0, els);
    ElseKept(g, path, s, r0, els);
    b1 := GenDefined(g, plain, path, h, b, open + {n}, els, false);
    MadeKnown(h, b, r, b1, open + {n}, false);
    ArmScope(s, h, r.st);
    BranchEndDefined(h, b, r.st, b1, open + {n}, |s.stack|, n, n);
    KnownLess(e, b1, open + {n} - {n}, open);
    EndObjects(r.st, |s.stack|, n, n);
    KnownCur(e, b1, open);
  }

  lemma ArmKnown(s: St, h: St, b: Notes, r: Out, b1: Notes, e: St, open: set<nat>, open': set<nat>)
    requires CurOk(h) && h.cur in b.blocks && ArmEnded(s, h, b, r, b1, e, open, open')
    ensures CurOk(e) && e.cur in b1.blocks && Known(e, b1, open') && ScopeKnown(e, b1) && Here(e, b1) == Here(h, b)
    ensures MoreNotes(b, b1) && MoreCode(h.fn, r.st.fn) && MoreCode(r.st.fn, e.fn) && e.objects == s.objects
    ensures CurOk(r.st) && r.st.cur in b1.blocks
    ensures OperandIs(b1, Here(r.st, b1), r.res.info.ir, |r.res.info.ty|)
  {
    hide CodeFits, MoreCode, MoreNotes, OperandIs, Here, ScopeKnown;
  }

  lemma MergesStay(b: Notes, b1: Notes, n: nat, d: set<nat>, from: set<nat>)
    requires Merges(b, n, d, from) && MoreNotes(b, b1)
    ensures Merges(b1, n, d, from)
  {
  }

  /** The second branch leaves the merge block alone, and does not end where the first one did. */
  lemma ElseKept(g: Graph, path: set<Ptr>, s: St, r: St, els: Ptr)
    requires WellFormed(g) && (els == 0 || els in g) && BranchDone(s, r)
    ensures var n := |s.fn.blocks|; var h1 := BranchEnd(r, |s.stack|, n, n + 2);
      var r1 := Gen(g, path, h1, els, false).st;
      && Valid(r1) && Grows(s, r1) && n < |r1.fn.blocks| && r1.cur != n && r1.cur != r.cur
      && r1.fn.blocks[n] == IR.Block([], None)
  {
    hide Valid, PathNotLiving, Gen, InfoOk, WellFormed, Grows, BranchEnd;
    var n := |s.fn.blocks|;
    ValidCur(r);
    BetweenRefl(path, s);
    BranchEndKeeps(path, s, s, r, n, n + 2);
    var h1 := BranchEnd(r, |s.stack|, n, n + 2);
    GenKeeps(g, path, h1, els, false);
    var r1 := Gen(g, path, h1, els, false).st;
    GrowsTrans(s, h1, r1);
    GrowsLeaves(h1, r1, n);
    CurMoves(h1, r1);
  }

  lemma CurMoves(s: St, s': St)
    requires Grows(s, s')
    ensures s'.cur == s.cur || s'.cur >= |s.fn.blocks|
  {
  }

  lemma IfTailDefined(s: St, a: Notes, open: set<nat>, e: St, b: Notes, t: Ptr, named: bool, base: nat, x0: Info,
      c0: nat, x1: Info, c1: nat) returns (a': Notes)
    requires CurOk(s) && s.cur in a.blocks && MoreNotes(a, b) && MoreCode(s.fn, e.fn)
    requires Known(e, b, open) && ScopeKnown(e, b) && b.blocks[e.cur].from == Some({c0, c1}) && c0 != c1
    requires Here(s, a) <= Here(e, b)
    requires c0 in b.blocks && c0 < |e.fn.blocks| && OperandIs(b, DefsEnd(e.fn, b, c0), x0.ir, |x0.ty|)
    requires c1 in b.blocks && c1 < |e.fn.blocks| && OperandIs(b, DefsEnd(e.fn, b, c1), x1.ir, |x1.ty|)
    ensures Made(s, a, IfTail(e, t, named, base, JoinTypes(x0.ty, x1.ty), x0.ir, c0, x1.ir, c1), a', open, named)
  {
    hide Known, MoreCode, MoreNotes, OperandIs, Here, DefsEnd, Finish, ScopeKnown, Result;
    KnownCur(e, b, open);
    GrewRefl(e, b, open);
    var ty := JoinTypes(x0.ty, x1.ty);
    if ty == [] {
      NullOperand(b, Here(e, b));
      a' := FinishAfter(e, b, e, b, open, t, named, base, Lit([]), []);
    } else {
      var b1 := PhiKnown(e, b, open, x0.ir, c0, x1.ir, c1, |ty|);
      var e1 := Emit(e, Phi(e.regs, x0.ir, c0, x1.ir, c1)).(regs := e.regs + 1);
      KnownCur(e1, b1, open);
      a' := FinishAfter(e, b, e1, b1, open, t, named, base, Reg(e.regs), ty);
    }
    var o := IfTail(e, t, named, base, ty, x0.ir, c0, x1.ir, c1);
    MadeKnown(e, b, o, a', open, named);
    GrewOn(s, a, e, b, o.st, a', open);
  }

  lemma ArmValue(r: St, b1: Notes, e: St, b2: Notes, o: Operand, size: nat)
    requires CurOk(r) && r.cur in b1.blocks && OperandIs(b1, Here(r, b1), o, size)
    requires MoreNotes(b1, b2) && MoreCode(r.fn, e.fn)
    ensures r.cur in b2.blocks && r.cur < |e.fn.blocks| && OperandIs(b2, DefsEnd(e.fn, b2, r.cur), o, size)
  {
    hide Dsts;
    DefsMore(r.fn, e.fn, b1, b2, r.cur);
    OperandMore(b1, b2, DefsEnd(r.fn, b1, r.cur), DefsEnd(e.fn, b2, r.cur), o, size);
  }

  lemma {:induction false} GenIfDefined(g: Graph, plain: set<Ptr>, path: set<Ptr>, s: St, a: Notes, open: set<nat>,
      t: Ptr, named: bool, base: nat, cond: Operand, thn: Ptr, els: Ptr) returns (a': Notes)
    requires WellFormed(g) && LabelFree(g, plain) && t in plain && t in g && t in path
    requires g[t].If? && thn == g[t].thn && els == g[t].els
    requires Valid(s) && Known(s, a, open) && ScopeKnown(s, a) && OperandIs(a, Here(s, a), cond, 1)
    requires GenIf(g, path, s, t, named, base, cond, thn, els).res.Done?
    ensures Made(s, a, GenIf(g, path, s, t, named, base, cond, thn, els), a', open, named)
    decreases |g.Keys - path|, 2
  {
    hide Known, MoreCode, MoreNotes, OperandIs, Here, DefsEnd, Gen, Valid, ScopeKnown, Grew, InfoOk, IfHead, BranchEnd,
      IfTail, JoinTypes, Grows, BranchDone, IfOpened, Made, ArmEnded;
    assert thn in Children(g[t]) && els in Children(g[t]);
    KnownCur(s, a, open);
    var n, scope := |s.fn.blocks|, |s.stack|;
    var h := IfHead(s, cond);
    var r0 := Gen(g, path, h, thn, false);
    FirstBranch(g, path, s, cond, thn);
    BranchRoom(s, r0.st);
    var h1 := BranchEnd(r0.st, scope, n, n + 2);
    var r1 := Gen(g, path, h1, els, false);
    SecondBranch(g, path, s, r0.st, els);
    var e := BranchEnd(r1.st, scope, n, n);
    var from := {r0.st.cur, r1.st.cur};
    var b := IfHeadDefined(s, a, open, cond, from);
    OpenedKnown(s, a, h, b, open, from);
    var b1 := ThenDefined(g, plain, path, s, open, cond, thn, h, b, r0, h1);
    ArmKnown(s, h, b, r0, b1, h1, open + {n, n + 2}, open + {n});
    MergesStay(b, b1, n, Here(h, b), from);
    var b2 := ElseDefined(g, plain, path, s, open, r0.st, els, h1, b1, r1, e);
    ArmKnown(s, h1, b1, r1, b2, e, open + {n}, open);
    EndObjects(r1.st, scope, n, n);
    MergesStay(b1, b2, n, Here(h, b), from);
    MoreCodeTrans(r0.st.fn, h1.fn, r1.st.fn);
    MoreCodeTrans(r0.st.fn, r1.st.fn, e.fn);
    ArmValue(r0.st, b1, e, b2, r0.res.info.ir, |r0.res.info.ty|);
    ArmValue(r1.st, b2, e, b2, r1.res.info.ir, |r1.res.info.ty|) by { MoreNotesRefl(b2); }
    IfGrew(s, a, h, b, open, from, r0.st.fn, e.fn, b1, b2);
    a' := IfTailDefined(s, a, open, e, b2, t, named, base, r0.res.info, r0.st.cur, r1.res.info, r1.st.cur);
  }

  lemma BranchRoom(s: St, r: St)
    requires BranchDone(s, r)
    ensures CurOk(r) && |s.fn.blocks| + 2 < |r.fn.blocks|
  {
  }

  lemma IfGrew(s: St, a: Notes, h: St, b: Notes, open: set<nat>, from: set<nat>, fn0: Fn, fn: Fn, b1: Notes, b2: Notes)
    requires CurOk(s) && s.cur in a.blocks && CurOk(h) && h.cur in b.blocks && IfOpened(s, a, h, b, open, from)
    requires MoreCode(h.fn, fn0) && MoreCode(fn0, fn) && MoreNotes(b, b1) && MoreNotes(b1, b2)
    ensures MoreNotes(a, b2) && MoreCode(s.fn, fn) && Here(s, a) <= Here(h, b)
  {
    hide Known, MoreCode, MoreNotes, Here, ScopeKnown;
    MoreCodeTrans(s.fn, h.fn, fn0);
    MoreCodeTrans(s.fn, fn0, fn);
    MoreNotesTrans(a, b, b1);
    MoreNotesTrans(a, b1, b2);
  }

  // ---------------------------------------------------------------- between the elements of blocks

  ghost predicate AllPlaced(objects: map<Ptr, Info>) {
    forall x | x in objects :: objects[x].place.Some?
  }

  /** The scope is that of s, cleared to some height, with at most t and its slot on top. */
  ghost predicate OnlyNamed(s: St, base: nat, t: Ptr, s': St) {
    forall x | x in s'.objects ::
      (x == t && s'.objects[x].place.Some?) || (x in ClearStack(s, base).objects && s'.objects[x] == s.objects[x])
  }

  lemma FinishNamed(s: St, s1: St, t: Ptr, base: nat, ir: Operand, ty: Ty)
    requires CurOk(s1) && s1.objects == s.objects && s1.stack == s.stack
    ensures OnlyNamed(s, base, t, Finish(s1, t, true, base, ir, ty).st)
  {
    hide WritePlace;
    if ty != [] {
      var c := ClearStack(s1, base);
      WritePlaceAppends(c.(fn := c.fn.(slots := c.fn.slots + [|ty|])), |c.fn.slots|, ir, |ty|, 0);
    }
  }

  lemma IfScope(g: Graph, path: set<Ptr>, s: St, r: St, els: Ptr, e: St)
    requires WellFormed(g) && (els == 0 || els in g) && BranchDone(s, r) && CurOk(r)
    requires |s.fn.blocks| + 2 < |r.fn.blocks|
    requires var r1 := Gen(g, path, BranchEnd(r, |s.stack|, |s.fn.blocks|, |s.fn.blocks| + 2), els, false).st;
      |s.fn.blocks| < |r1.fn.blocks| && e == BranchEnd(r1, |s.stack|, |s.fn.blocks|, |s.fn.blocks|)
    ensures CurOk(e) && e.objects == s.objects && e.stack == s.stack
  {
    hide Valid, Gen, BranchEnd, Grows, WellFormed;
    var n := |s.fn.blocks|;
    ElseKept(g, path, s, r, els);
    var r1 := Gen(g, path, BranchEnd(r, |s.stack|, n, n + 2), els, false).st;
    ValidCur(s);
    BetweenRefl(path, s);
    BranchEndKeeps(path, s, s, r1, n, n);
  }

  lemma TagNamed(g: Graph, path: set<Ptr>, s: St, t: Ptr, base: nat, f: seq<Info>)
    requires WellFormed(g) && t in g && t in path && Valid(s) && |f| == |CompiledFields(g[t])|
    requires !g[t].Block? && !g[t].Label? && GenTag(g, path, s, t, true, base, f).res.Done?
    ensures OnlyNamed(s, base, t, GenTag(g, path, s, t, true, base, f).st)
  {
    hide Valid, Gen, Finish, EmitArith, EmitConcatenate, WritePlace, OnlyNamed, GenIf;
    ValidCur(s);
    match g[t]
    case Imv(ty, ws) => FinishNamed(s, s, t, base, Lit(ws), ty);
    case Arith(op, _) =>
      var args := seq(|f|, i requires 0 <= i < |f| => f[i].ir);
      EmitArithGrows(s, op, args);
      FinishNamed(s, EmitArith(s, op, args).0, t, base, EmitArith(s, op, args).1, INT);
    case If(_, thn, els) => IfNamed(g, path, s, t, base, f[0].ir, thn, els);
    case Concatenate(_, _) =>
      FinishNamed(s, s, t, base, Lit([]), []);
      EmitConcatenateAppends(s, f[0], f[1]);
      var (s1, x) := EmitConcatenate(s, f[0], f[1]);
      FinishNamed(s, s1, t, base, x, f[0].ty + f[1].ty);
    case Store(_, _) =>
      WritePlaceAppends(s, f[0].place.value, f[1].ir, |f[1].ty|, 0);
      FinishNamed(s, WritePlace(s, f[0].place.value, f[1].ir, |f[1].ty|, 0), t, base, Lit([]), []);
    case Goto(dest) =>
      var next, l := |s.fn.blocks|, s.labels[dest];
      var term := if l.isForward then Br(l.block) else SpendFuel(l.block, next);
      FinishNamed(s, Position(SetTerm(NewBlock(s), term), next), t, base, Lit([]), []);
    case RunFunction(_) =>
      FinishNamed(s, Emit(s, Call(s.regs, f[0].ir)).(regs := s.regs + 1), t, base, Reg(s.regs), [DynamicObject]);
  }

  lemma IfNamed(g: Graph, path: set<Ptr>, s: St, t: Ptr, base: nat, cond: Operand, thn: Ptr, els: Ptr)
    requires WellFormed(g) && t in g && t in path && Valid(s) && g[t].If? && thn == g[t].thn && els == g[t].els
    requires GenIf(g, path, s, t, true, base, cond, thn, els).res.Done?
    ensures OnlyNamed(s, base, t, GenIf(g, path, s, t, true, base, cond, thn, els).st)
  {
    hide Valid, Gen, Finish, OnlyNamed, IfHead, BranchEnd, JoinTypes, BranchDone;
    assert thn in Children(g[t]) && els in Children(g[t]);
    ValidCur(s);
    var n, scope := |s.fn.blocks|, |s.stack|;
    FirstBranch(g, path, s, cond, thn);
    var r0 := Gen(g, path, IfHead(s, cond), thn, false);
    BranchRoom(s, r0.st);
    var r1 := Gen(g, path, BranchEnd(r0.st, scope, n, n + 2), els, false);
    SecondBranch(g, path, s, r0.st, els);
    var e := BranchEnd(r1.st, scope, n, n);
    IfScope(g, path, s, r0.st, els, e);
    var ty := JoinTypes(r0.res.info.ty, r1.res.info.ty);
    FinishNamed(s, e, t, base, Lit([]), []);
    var phi := Phi(e.regs, r0.res.info.ir, r0.st.cur, r1.res.info.ir, r1.st.cur);
    FinishNamed(s, Emit(e, phi).(regs := e.regs + 1), t, base, Reg(e.regs), ty);
  }

  /** A direct element of a block leaves no value without a slot. */
  lemma {:induction false} NamedPlaced(g: Graph, plain: set<Ptr>, path: set<Ptr>, s: St, t: Ptr)
    requires WellFormed(g) && LabelFree(g, plain) && (t == 0 || t in plain) && Valid(s) && AllPlaced(s.objects)
    requires Gen(g, path, s, t, true).res.Done?
    ensures AllPlaced(Gen(g, path, s, t, true).st.objects)
    decreases |g.Keys - path|, 0
  {
    hide Valid, GenFields, GenTag, LoadFrom, AllPlaced, Grows, PathNotLiving;
    ValidCur(s);
    if t == 0 {
    } else if t in s.objects {
      LoadFromAppends(s, if s.objects[t].place.Some? then s.objects[t].place.value else 0, |s.objects[t].ty|);
    } else {
      var inner := path + {t};
      assert g.Keys - path == g.Keys - inner + {t};
      if g[t].Block? {
        BlockFields(g, inner, s, t);
        BlockPlaced(g, plain, inner, s, t, g[t].elems, 0, NULL_INFO);
      } else {
        BetweenRefl(inner, s);
        GenFieldsKeeps(g, inner, s, s, t, CompiledFields(g[t]), 0, []);
        var f := GenFields(g, inner, s, t, CompiledFields(g[t]), 0, []);
        TagNamed(g, inner, f.st, t, |s.stack|, f.infos);
        RestoredPlaced(s, f.st, t, GenTag(g, inner, f.st, t, true, |s.stack|, f.infos).st);
      }
    }
  }

  lemma BlockFields(g: Graph, path: set<Ptr>, s: St, t: Ptr)
    requires WellFormed(g) && t in g && t in path && CurOk(s) && (g[t].Block? || g[t].Label?)
    ensures GenFields(g, path, s, t, CompiledFields(g[t]), 0, []) == FieldsOut(s, None, [])
    ensures g[t].Block? ==> forall named: bool, base: nat ::
      GenTag(g, path, s, t, named, base, []) == GenBlock(g, path, s, t, g[t].elems, 0, named, NULL_INFO)
  {
    hide GenBlock;
  }

  lemma RestoredPlaced(s: St, s1: St, t: Ptr, s': St)
    requires Valid(s) && Valid(s1) && Grows(s, s1) && OnlyNamed(s1, |s.stack|, t, s') && AllPlaced(s.objects)
    ensures AllPlaced(s'.objects)
  {
    hide Valid;
    assert ScopeOk(s.stack, s.objects) && ScopeOk(s1.stack, s1.objects) by { ValidCur(s); ValidCur(s1); }
    ClearStackRestores(s, s1, |s.stack|);
  }

  lemma {:induction false} BlockPlaced(g: Graph, plain: set<Ptr>, path: set<Ptr>, s: St, t: Ptr, elems: seq<Ptr>,
      i: nat, last: Info)
    requires WellFormed(g) && LabelFree(g, plain) && t in plain && t in g && t in path
    requires g[t] == Ast.Block(elems) && i <= |elems| && Valid(s) && AllPlaced(s.objects)
    requires CurOk(s) && GenBlock(g, path, s, t, elems, i, true, last).res.Done?
    ensures AllPlaced(GenBlock(g, path, s, t, elems, i, true, last).st.objects)
    decreases |g.Keys - path|, |elems| - i + 1
  {
    hide Valid, Gen, AllPlaced, Grows;
    if i < |elems| {
      assert elems[i] in Children(g[t]);
      NamedPlaced(g, plain, path, s, elems[i]);
      GenKeeps(g, path, s, elems[i], true);
      var r := Gen(g, path, s, elems[i], true);
      BlockPlaced(g, plain, path, r.st, t, elems, i + 1, r.res.info);
    }
  }

  // ---------------------------------------------------------------- blocks and labels

  /** The state after an accepted AST that may have labels. */
  ghost predicate Tamed(s: St, a: Notes, o: Out, a': Notes, open: set<nat>, named: bool) {
    && o.res.Done? && Known(o.st, a', open) && MoreNotes(a, a') && MoreCode(s.fn, o.st.fn)
    && ScopeKnown(o.st, a') && Result(o.st, a', o.res.info, named)
    && (named ==> AllPlaced(o.st.objects))
  }

  lemma TamedTrans(s: St, a: Notes, s1: St, a1: Notes, o: Out, a2: Notes, open: set<nat>, named: bool)
    requires MoreNotes(a, a1) && MoreCode(s.fn, s1.fn) && Tamed(s1, a1, o, a2, open, named)
    ensures Tamed(s, a, o, a2, open, named)
  {
    hide Known, MoreCode, MoreNotes, ScopeKnown, Result, AllPlaced;
    MoreNotesTrans(a, a1, a2);
    MoreCodeTrans(s.fn, s1.fn, o.st.fn);
  }

  lemma MadeIsTamed(s: St, a: Notes, o: Out, a': Notes, open: set<nat>, named: bool)
    requires CurOk(s) && s.cur in a.blocks && Made(s, a, o, a', open, named)
    requires named ==> AllPlaced(o.st.objects)
    ensures Tamed(s, a, o, a', open, named)
  {
    hide CodeFits, MoreCode, MoreNotes, ScopeKnown, Result, AllPlaced, Here;
  }

  lemma TamedKnown(s: St, a: Notes, o: Out, a': Notes, open: set<nat>, named: bool)
    requires Tamed(s, a, o, a', open, named)
    ensures CurOk(o.st) && o.st.cur in a'.blocks && Known(o.st, a', open) && ScopeKnown(o.st, a')
    ensures Usable(o.st, a', o.res.info) && (named ==> AllPlaced(o.st.objects))
    ensures MoreNotes(a, a') && MoreCode(s.fn, o.st.fn)
  {
    hide CodeFits, MoreCode, MoreNotes, ScopeKnown, AllPlaced, OperandIs, Here;
  }

  /** An accepted AST between the elements of blocks: a block, a label, or an AST without
      labels. */
  lemma {:induction false} GenTame(g: Graph, plain: set<Ptr>, path: set<Ptr>, s: St, a: Notes, open: set<nat>, t: Ptr,
      named: bool) returns (a': Notes)
    requires WellFormed(g) && Tame(g, plain) && (t == 0 || t in g)
    requires t != 0 && t !in plain && g[t].Label? ==> named
    requires Valid(s) && Known(s, a, open) && ScopeKnown(s, a) && AllPlaced(s.objects)
    requires CurOk(s) && Gen(g, path, s, t, named).res.Done?
    ensures Tamed(s, a, Gen(g, path, s, t, named), a', open, named)
    decreases |g.Keys - path|, 0
  {
    hide Known, MoreCode, MoreNotes, GenFields, GenTag, LoadFrom, Valid, AllPlaced, ScopeKnown, Result, Grew, Tamed;
    var o := Gen(g, path, s, t, named);
    KnownCur(s, a, open);
    if t == 0 || t in plain {
      a' := GenDefined(g, plain, path, s, a, open, t, named);
      if named { NamedPlaced(g, plain, path, s, t); }
      MadeIsTamed(s, a, o, a', open, named);
    } else if t in s.objects {
      a' := LivingMade(s, a, open, t, named);
      LoadFromAppends(s, if s.objects[t].place.Some? then s.objects[t].place.value else 0, |s.objects[t].ty|);
      MadeIsTamed(s, a, o, a', open, named);
    } else {
      var inner := path + {t};
      assert g.Keys - path == g.Keys - inner + {t};
      BlockFields(g, inner, s, t);
      if g[t].Block? {
        NullOperand(a, Here(s, a));
        NullInfoOk(s);
        CodeRefl(s, a);
        a' := BlockTame(g, plain, inner, s, a, s, a, open, t, g[t].elems, 0, named, NULL_INFO);
      } else {
        LabelTag(g, inner, s, t, named);
        a' := LabelTame(g, plain, inner, s, a, open, t, g[t].body);
      }
    }
  }

  lemma CodeRefl(s: St, a: Notes)
    ensures MoreCode(s.fn, s.fn) && MoreNotes(a, a)
  {
  }

  lemma LabelTag(g: Graph, path: set<Ptr>, s: St, t: Ptr, named: bool)
    requires WellFormed(g) && t in g && t in path && CurOk(s) && g[t].Label?
    ensures GenTag(g, path, s, t, named, |s.stack|, []) == GenLabel(g, path, s, t, named, |s.stack|, g[t].body)
  {
    hide GenLabel;
  }

  lemma {:induction false} BlockTame(g: Graph, plain: set<Ptr>, path: set<Ptr>, s0: St, a0: Notes, s: St, a: Notes,
      open: set<nat>, t: Ptr, elems: seq<Ptr>, i: nat, named: bool, last: Info) returns (a': Notes)
    requires WellFormed(g) && Tame(g, plain) && t in g && t in path && g[t] == Ast.Block(elems) && i <= |elems|
    requires Valid(s) && CurOk(s) && Known(s, a, open) && ScopeKnown(s, a) && AllPlaced(s.objects)
    requires MoreNotes(a0, a) && MoreCode(s0.fn, s.fn) && Usable(s, a, last) && InfoOk(s, last)
    requires GenBlock(g, path, s, t, elems, i, named, last).res.Done?
    ensures Tamed(s0, a0, GenBlock(g, path, s, t, elems, i, named, last), a', open, named)
    decreases |g.Keys - path|, |elems| - i + 1
  {
    hide Known, MoreCode, MoreNotes, Gen, LoadFrom, Valid, AllPlaced, ScopeKnown, Result, Grew, Tamed, InfoOk, Usable;
    KnownCur(s, a, open);
    if i == |elems| {
      a' := BlockEndDefined(s, a, open, named, last);
      MadeIsTamed(s, a, GenBlock(g, path, s, t, elems, i, named, last), a', open, named);
      TamedTrans(s0, a0, s, a, GenBlock(g, path, s, t, elems, i, named, last), a', open, named);
    } else {
      assert elems[i] in Children(g[t]);
      var r := Gen(g, path, s, elems[i], true);
      var a1 := GenTame(g, plain, path, s, a, open, elems[i], true);
      GenKeeps(g, path, s, elems[i], true);
      TamedKnown(s, a, r, a1, open, true);
      MoreNotesTrans(a0, a, a1);
      MoreCodeTrans(s0.fn, s.fn, r.st.fn);
      a' := BlockTame(g, plain, path, s0, a0, r.st, a1, open, t, elems, i + 1, named, r.res.info);
    }
  }

  /** A label is entered: its block needs nothing to be defined. */
  lemma LabelOpened(s: St, a: Notes, open: set<nat>, t: Ptr, s1: St, a1: Notes)
    requires Known(s, a, open) && CurOk(s) && s.cur in a.blocks && ScopeKnown(s, a)
    requires s1 == NewBlock(s).(labels := s.labels[t := LabelInfo(|s.fn.blocks|, |s.stack|, true)])
    requires a1 == WithBlock(a, |s.fn.blocks|, Note({}, None, None))
    ensures Known(s1, a1, open + {|s.fn.blocks|}) && CurOk(s1) && s1.cur in a1.blocks && ScopeKnown(s1, a1)
    ensures MoreNotes(a, a1) && MoreCode(s.fn, s1.fn) && s1.objects == s.objects && s1.stack == s.stack
  {
    hide CodeFits, MoreCode, OperandIs, Dsts;
    var n := |s.fn.blocks|;
    NewBlockKnown(s, a, open, Note({}, None, None));
    var h := NewBlock(s);
    assert Known(s1, a1, open + {n}) && Here(s1, a1) == Here(h, a1) == Here(s, a);
    hide Here, Known;
    forall x | x in s1.objects ensures Usable(s1, a1, s1.objects[x]) {
      assert Usable(s, a, s.objects[x]);
      if s.objects[x].place.None? {
        OperandMore(a, a1, Here(s, a), Here(s1, a1), s.objects[x].ir, |s.objects[x].ty|);
      }
    }
  }

  /** A label is closed: control goes to its block, with the scope there was before. */
  lemma LabelClosed(s: St, r: St, a: Notes, open: set<nat>, t: Ptr, block: nat, e: St)
    requires Valid(s) && Valid(r) && s.stack <= r.stack && CurOk(r) && r.cur in a.blocks
    requires forall x | x in s.objects :: x in r.objects && r.objects[x] == s.objects[x]
    requires Known(r, a, open + {block}) && ScopeKnown(r, a) && AllPlaced(s.objects)
    requires block in a.blocks && a.blocks[block] == Note({}, None, None)
    requires block < |r.fn.blocks| && block != r.cur && r.fn.blocks[block] == IR.Block([], None)
    requires e == LabelEnd(r, t, block, |s.stack|)
    ensures Tamed(r, a, Finish(e, t, true, |s.stack|, Lit([]), []), a, open, true)
  {
    hide Known, MoreCode, MoreNotes, ScopeOk, ObjectsOk, AllPlaced, ScopeKnown, ClearStack;
    JumpKnown(r, a, open + {block}, block, block);
    var j := Position(SetTerm(r, Br(block)), block);
    KnownLess(j, a, open + {block} - {block}, open);
    var c := ClearStack(e, |s.stack|);
    ClearStackRestores(s, e, |s.stack|);
    ClearFrame(e, |s.stack|);
    LabelScope(r, a, open, t, block, |s.stack|, j, c);
    CodeRefl(r, a);
    KnownCur(c, a, open);
    NullOperand(a, Here(c, a));
  }

  lemma ClearFrame(s: St, n: nat)
    ensures var c := ClearStack(s, n);
      c.fn == s.fn && c.cur == s.cur && c.regs == s.regs && c.labels == s.labels && c.order == s.order
  {
  }

  /** After the label only values in slots are alive, and its own block is like any label's. */
  lemma LabelScope(r: St, a: Notes, open: set<nat>, t: Ptr, block: nat, base: nat, j: St, c: St)
    requires CurOk(r) && r.cur in a.blocks && ScopeKnown(r, a) && Known(j, a, open)
    requires block in a.blocks && a.blocks[block] == Note({}, None, None) && AllPlaced(c.objects)
    requires c.fn == j.fn && c.cur == j.cur && c.regs == j.regs
    requires c.labels == r.labels[t := LabelInfo(block, base, false)]
    ensures Known(c, a, open) && CurOk(c) && c.cur in a.blocks && ScopeKnown(c, a)
  {
    hide CodeFits, OperandIs, Here;
  }

  lemma {:induction false} LabelTame(g: Graph, plain: set<Ptr>, path: set<Ptr>, s: St, a: Notes, open: set<nat>, t: Ptr,
      body: Ptr) returns (a': Notes)
    requires WellFormed(g) && Tame(g, plain) && t in g && t in path && g[t] == Label(body) && t !in plain
    requires Valid(s) && CurOk(s) && Known(s, a, open) && ScopeKnown(s, a) && AllPlaced(s.objects)
    requires GenLabel(g, path, s, t, true, |s.stack|, body).res.Done?
    ensures Tamed(s, a, GenLabel(g, path, s, t, true, |s.stack|, body), a', open, true)
    decreases |g.Keys - path|, 1
  {
    hide Known, MoreCode, MoreNotes, Gen, Valid, AllPlaced, ScopeKnown, Result, Grew, Tamed, InfoOk, Usable, LabelEnd,
      Finish, Grows, PathNotLiving;
    KnownCur(s, a, open);
    assert body in Children(g[t]);
    var n := |s.fn.blocks|;
    var s1, a1 := NewBlock(s).(labels := s.labels[t := LabelInfo(n, |s.stack|, true)]),
      WithBlock(a, n, Note({}, None, None));
    LabelOpened(s, a, open, t, s1, a1);
    LabelValid(s, t);
    var r := Gen(g, path, s1, body, false);
    a' := GenTame(g, plain, path, s1, a1, open + {n}, body, false);
    TamedKnown(s1, a1, r, a', open + {n}, false);
    GenKeeps(g, path, s1, body, false);
    BodyKept(s, s1, r.st, n);
    MoreNotesAt(a1, a', n);
    var e := LabelEnd(r.st, t, n, |s.stack|);
    LabelClosed(s, r.st, a', open, t, n, e);
    MoreNotesTrans(a, a1, a');
    MoreCodeTrans(s.fn, s1.fn, r.st.fn);
    TamedTrans(s, a, r.st, a', Finish(e, t, true, |s.stack|, Lit([]), []), a', open, true);
  }

  lemma MoreNotesAt(a: Notes, a': Notes, b: nat)
    requires MoreNotes(a, a') && b in a.blocks
    ensures b in a'.blocks && a'.blocks[b] == a.blocks[b]
  {
  }

  lemma LabelValid(s: St, t: Ptr)
    requires Valid(s)
    ensures var n := |s.fn.blocks|;
      var s1 := NewBlock(s).(labels := s.labels[t := LabelInfo(n, |s.stack|, true)]);
      Valid(s1) && s1.cur != n && s1.fn.blocks[n] == IR.Block([], None)
  {
    hide ScopeOk, ObjectsOk;
  }

  lemma BodyKept(s: St, s1: St, r: St, n: nat)
    requires Valid(s1) && Grows(s1, r) && s1.stack == s.stack && s1.objects == s.objects
    requires n < |s1.fn.blocks| && s1.cur != n && s1.fn.blocks[n] == IR.Block([], None)
    ensures s.stack <= r.stack && n < |r.fn.blocks| && n != r.cur && r.fn.blocks[n] == IR.Block([], None)
    ensures forall x | x in s.objects :: x in r.objects && r.objects[x] == s.objects[x]
  {
    hide Valid;
  }
}
