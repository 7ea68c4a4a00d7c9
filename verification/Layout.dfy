/**
 How emitted code is laid out. The blocks are ordered by when the builder was positioned on
 them; every jump goes on in that order, except a backward goto, which spends fuel.
 */
module Layout {
  import opened Options
  import opened Words
  import opened IR
  import opened Ast
  import opened CodeGen
  import opened Scopes

  ghost predicate Ahead(order: seq<nat>, i: nat, b: nat)
    requires i < |order|
  {
    b !in order[..i + 1]
  }

  /** A jump from position i goes ahead, except that a fuelled one may go back. */
  ghost predicate EdgeOk(order: seq<nat>, i: nat, t: Term)
    requires i < |order|
  {
    match t
    case Br(b) => Ahead(order, i, b)
    case CondBr(_, b, c) => Ahead(order, i, b) && Ahead(order, i, c)
    case SpendFuel(back, fail) => back in order[..i + 1] && Ahead(order, i, fail)
    case Ret(_) => true
  }

  ghost predicate Ordered(blocks: seq<Block>, order: seq<nat>) {
    && (forall i | 0 <= i < |order| :: order[i] < |blocks|)
    && (forall i, j | 0 <= i < j < |order| :: order[i] != order[j])
    && (forall b: nat | b < |blocks| && b !in order :: blocks[b] == IR.Block([], None))
    && (forall i | 0 <= i < |order| :: blocks[order[i]].term.Some? ==> EdgeOk(order, i, blocks[order[i]].term.value))
  }

  ghost predicate OrderOk(s: St) {
    && CurOk(s) && |s.order| > 0 && s.order[|s.order| - 1] == s.cur
    && Ordered(s.fn.blocks, s.order)
  }

  /** A forward label's block is still to come; a label that is behind is in place. */
  ghost predicate LabelsPlaced(labels: map<Ptr, LabelInfo>, order: seq<nat>) {
    forall x | x in labels :: labels[x].isForward <==> labels[x].block !in order
  }

  /** Between s and s', only new blocks were placed, and only labels of new blocks were made
      and are behind by now. */
  ghost predicate Laid(s: St, s': St) {
    && |s.fn.blocks| <= |s'.fn.blocks|
    && s.order <= s'.order
    && (forall b | b in s'.order :: b in s.order || b >= |s.fn.blocks|)
    && (forall x | x in s.labels :: x in s'.labels && s'.labels[x] == s.labels[x])
    && (forall x | x in s'.labels && x !in s.labels :: s'.labels[x].block >= |s.fn.blocks| && !s'.labels[x].isForward)
  }

  ghost predicate Fine(s: St) {
    OrderOk(s) && LabelsPlaced(s.labels, s.order) && LabelsOk(s.labels, |s.fn.blocks|)
  }

  lemma LaidTrans(s: St, s1: St, s2: St)
    requires Laid(s, s1) && Laid(s1, s2)
    ensures Laid(s, s2)
  {
  }

  // ---------------------------------------------------------------- steps of the builder

  /** Code added to the current block; scopes do not matter. */
  lemma AppendedFine(s: St, s': St)
    requires Fine(s)
    requires |s'.fn.blocks| == |s.fn.blocks| && s'.cur == s.cur && s'.order == s.order && s'.labels == s.labels
    requires s'.fn.blocks[s.cur].term == s.fn.blocks[s.cur].term
    requires forall i | 0 <= i < |s.fn.blocks| && i != s.cur :: s'.fn.blocks[i] == s.fn.blocks[i]
    ensures Fine(s') && Laid(s, s')
  {
    assert s.cur in s.order;
  }

  lemma NewBlockFine(s: St)
    requires Fine(s)
    ensures Fine(NewBlock(s)) && Laid(s, NewBlock(s)) && |s.fn.blocks| !in NewBlock(s).order
  {
    var s' := NewBlock(s);
    forall b: nat | b < |s'.fn.blocks| && b !in s'.order ensures s'.fn.blocks[b] == IR.Block([], None) {}
  }

  lemma SetTermFine(s: St, t: Term)
    requires Fine(s) && EdgeOk(s.order, |s.order| - 1, t)
    ensures Fine(SetTerm(s, t)) && Laid(s, SetTerm(s, t))
  {
    hide EdgeOk;
    var s', last := SetTerm(s, t), |s.order| - 1;
    assert s.cur == s.order[last];
    forall i | 0 <= i < |s.order| && s'.fn.blocks[s.order[i]].term.Some?
      ensures EdgeOk(s.order, i, s'.fn.blocks[s.order[i]].term.value)
    {
      if i != last { assert s.order[i] != s.cur; }
    }
  }

  lemma EdgeStays(order: seq<nat>, b: nat, i: nat, t: Term)
    requires i < |order| && EdgeOk(order, i, t)
    ensures EdgeOk(order + [b], i, t)
  {
    assert (order + [b])[..i + 1] == order[..i + 1];
  }

  /** Moving on to a block that was not placed yet, and is not a forward label's. */
  lemma PositionFine(s0: St, s: St, b: nat)
    requires Fine(s) && Laid(s0, s) && |s0.fn.blocks| <= b < |s.fn.blocks| && b !in s.order
    requires forall x | x in s.labels :: s.labels[x].block != b
    ensures Fine(Position(s, b)) && Laid(s0, Position(s, b))
  {
    hide EdgeOk;
    var s' := Position(s, b);
    forall i | 0 <= i < |s'.order| && s'.fn.blocks[s'.order[i]].term.Some?
      ensures EdgeOk(s'.order, i, s'.fn.blocks[s'.order[i]].term.value)
    {
      if i < |s.order| { EdgeStays(s.order, b, i, s.fn.blocks[s.order[i]].term.value); }
    }
    forall c: nat | c < |s'.fn.blocks| && c !in s'.order ensures s'.fn.blocks[c] == IR.Block([], None) {
      assert c !in s.order;
    }
    forall x | x in s'.labels ensures s'.labels[x].isForward <==> s'.labels[x].block !in s'.order {
      assert s.labels[x].block in s.order <==> s.labels[x].block in s'.order;
    }
  }

  lemma NewBlockIsAhead(s: St, b: nat)
    requires Fine(s) && b >= |s.fn.blocks|
    ensures b !in s.order && Ahead(s.order, |s.order| - 1, b)
    ensures forall x | x in s.labels :: s.labels[x].block != b
  {
    assert s.order[..|s.order|] == s.order;
  }

  /** A block kept aside in s0 is still ahead of everything, and no label's, in s. */
  lemma KeptAside(s0: St, s: St, b: nat)
    requires Fine(s0) && Fine(s) && Laid(s0, s) && b < |s0.fn.blocks| && b !in s0.order
    requires forall x | x in s0.labels :: s0.labels[x].block != b
    ensures b !in s.order && Ahead(s.order, |s.order| - 1, b)
    ensures forall x | x in s.labels :: s.labels[x].block != b
  {
    assert s.order[..|s.order|] == s.order;
  }

  lemma AppendsFine(s: St, s': St)
    requires Fine(s) && Appends(s, s')
    ensures Fine(s') && Laid(s, s')
  {
    hide Ordered;
    AppendedFine(s, s');
  }

  lemma ClearStackFine(s: St, n: nat)
    requires Fine(s)
    ensures Fine(CodeGen.ClearStack(s, n)) && Laid(s, CodeGen.ClearStack(s, n))
  {
    hide Ordered;
    AppendedFine(s, CodeGen.ClearStack(s, n));
  }

  lemma FinishFine(s: St, t: Ptr, named: bool, base: nat, ir: Operand, ty: Ty)
    requires Fine(s)
    ensures Fine(Finish(s, t, named, base, ir, ty).st) && Laid(s, Finish(s, t, named, base, ir, ty).st)
  {
    hide Ordered, LabelsPlaced, LabelsOk, WritePlace;
    var s1 := if named then CodeGen.ClearStack(s, base) else s;
    if named && ty != [] {
      WritePlaceAppends(s1.(fn := s1.fn.(slots := s1.fn.slots + [|ty|])), |s1.fn.slots|, ir, |ty|, 0);
    }
    AppendedFine(s, Finish(s, t, named, base, ir, ty).st);
  }

  /** The arms of a branch are ahead of everything, and its merge block and second arm stay so. */
  ghost predicate BranchOpen(s: St, h: St) {
    var n := |s.fn.blocks|;
    && Fine(h) && Laid(s, h) && |h.fn.blocks| == n + 3
    && n !in h.order && n + 2 !in h.order
    && forall x | x in h.labels :: h.labels[x].block < n
  }

  lemma ThreeBlocksFine(s: St)
    requires Fine(s)
    ensures var s3 := NewBlock(NewBlock(NewBlock(s))); Fine(s3) && Laid(s, s3)
  {
    var s1 := NewBlock(s);
    var s2 := NewBlock(s1);
    NewBlockFine(s);
    NewBlockFine(s1);
    NewBlockFine(s2);
    hide Fine, Laid;
    LaidTrans(s, s1, s2);
    LaidTrans(s, s2, NewBlock(s2));
  }

  lemma BranchOnFine(s: St, cond: Operand)
    requires Fine(s)
    ensures BranchOpen(s, BranchOn(s, cond))
  {
    hide Ordered, LabelsPlaced;
    var n := |s.fn.blocks|;
    var s3 := NewBlock(NewBlock(NewBlock(s)));
    ThreeBlocksFine(s);
    NewBlockIsAhead(s, n);
    NewBlockIsAhead(s, n + 1);
    NewBlockIsAhead(s, n + 2);
    var t := CondBr(cond, n + 1, n + 2);
    SetTermFine(s3, t);
    LaidTrans(s, s3, SetTerm(s3, t));
    PositionFine(s, SetTerm(s3, t), n + 1);
  }

  lemma IfHeadFine(s: St, cond: Operand)
    requires Fine(s)
    ensures BranchOpen(s, IfHead(s, cond))
  {
    hide Ordered, LabelsPlaced;
    var (s1, c) := EmitCompute(s, NE, cond, Lit([0]));
    EmitComputeFine(s, NE, cond, Lit([0]));
    BranchOnFine(s1, c);
    hide Fine;
    LaidTrans(s, s1, BranchOn(s1, c));
  }

  /** A guarded operator lays out its two arms, then the merge. */
  lemma GuardedFine(s: St, cond: Operand, op: BinOp, x: Operand, y: Operand, other: Operand)
    requires Fine(s)
    ensures Fine(Guarded(s, cond, op, x, y, other).0) && Laid(s, Guarded(s, cond, op, x, y, other).0)
  {
    hide Ordered, LabelsPlaced, LabelsOk, BranchOn;
    var n := |s.fn.blocks|;
    var h := BranchOn(s, cond);
    BranchOnFine(s, cond);
    var s1 := EmitCompute(h, op, x, y).0;
    EmitComputeFine(h, op, x, y);
    LaidTrans(s, h, s1);
    Jumps(s, s1, n, n + 2);
    var s2 := Position(SetTerm(s1, Br(n)), n + 2);
    hide SetTerm;
    Jumps(s, s2, n, n);
    var s3 := Position(SetTerm(s2, Br(n)), n);
    var s4 := Guarded(s, cond, op, x, y, other).0;
    assert Appends(s3, s4);
    AppendsFine(s3, s4);
    LaidTrans(s, s3, s4);
  }

  /** Ending the current block with a jump to `merge`, and moving on to `next`. */
  lemma Jumps(s0: St, s: St, merge: nat, next: nat)
    requires Fine(s) && Laid(s0, s)
    requires |s0.fn.blocks| <= merge < |s.fn.blocks| && |s0.fn.blocks| <= next < |s.fn.blocks|
    requires merge !in s.order && next !in s.order
    requires forall x | x in s.labels :: s.labels[x].block != next
    ensures var e := Position(SetTerm(s, Br(merge)), next);
      Fine(e) && Laid(s0, e) && e.order == s.order + [next] && e.labels == s.labels
  {
    hide Ordered, LabelsPlaced, LabelsOk;
    assert s.order[..|s.order|] == s.order;
    SetTermFine(s, Br(merge));
    LaidTrans(s0, s, SetTerm(s, Br(merge)));
    PositionFine(s0, SetTerm(s, Br(merge)), next);
  }

  lemma EmitArithFine(s: St, op: ArithOp, args: seq<Operand>)
    requires Fine(s) && |args| == Arity(op)
    ensures Fine(EmitArith(s, op, args).0) && Laid(s, EmitArith(s, op, args).0)
  {
    hide OrderOk, Laid, Guarded;
    assert CurOk(s) by { FineCur(s); }
    forall cmp, limit, bin, x, y, other
      ensures Fine(Checked(s, cmp, limit, bin, x, y, other).0) && Laid(s, Checked(s, cmp, limit, bin, x, y, other).0)
    {
      CheckedFine(s, cmp, limit, bin, x, y, other);
    }
    forall bin, x, y ensures Fine(EmitCompute(s, bin, x, y).0) && Laid(s, EmitCompute(s, bin, x, y).0) {
      EmitComputeFine(s, bin, x, y);
    }
    LaidRefl(s);
  }

  lemma FineCur(s: St)
    requires Fine(s)
    ensures CurOk(s)
  {
  }

  lemma LaidRefl(s: St)
    ensures Laid(s, s)
  {
  }

  lemma EmitComputeFine(s: St, op: BinOp, x: Operand, y: Operand)
    requires Fine(s)
    ensures Fine(EmitCompute(s, op, x, y).0) && Laid(s, EmitCompute(s, op, x, y).0)
  {
    AppendsFine(s, EmitCompute(s, op, x, y).0);
  }

  lemma CheckedFine(s: St, cmp: BinOp, limit: Word, op: BinOp, x: Operand, y: Operand, other: Operand)
    requires Fine(s)
    ensures Fine(Checked(s, cmp, limit, op, x, y, other).0) && Laid(s, Checked(s, cmp, limit, op, x, y, other).0)
  {
    hide Laid, Guarded;
    var (s1, c) := EmitCompute(s, cmp, y, Lit([limit]));
    EmitComputeFine(s, cmp, y, Lit([limit]));
    GuardedFine(s1, c, op, x, y, other);
    LaidTrans(s, s1, Guarded(s1, c, op, x, y, other).0);
  }

  // ---------------------------------------------------------------- generate_IR

  ghost predicate Extended(s0: St, s: St) {
    Fine(s) && Laid(s0, s)
  }

  lemma ExtendedTrans(s0: St, s1: St, s2: St)
    requires Extended(s0, s1) && Extended(s1, s2)
    ensures Extended(s0, s2)
  {
    hide Fine;
    LaidTrans(s0, s1, s2);
  }

  lemma LoadFromFine(s: St, slot: nat, size: nat)
    requires Fine(s)
    ensures Extended(s, LoadFrom(s, slot, size).0)
  {
    FineCur(s);
    LoadFromAppends(s, slot, size);
    hide Fine, Appends, LoadFrom;
    AppendsFine(s, LoadFrom(s, slot, size).0);
  }

  lemma FinishExtended(s0: St, s: St, t: Ptr, named: bool, base: nat, ir: Operand, ty: Ty)
    requires Extended(s0, s) && CurOk(s)
    ensures Extended(s0, Finish(s, t, named, base, ir, ty).st)
  {
    FinishFine(s, t, named, base, ir, ty);
    ExtendedTrans(s0, s, Finish(s, t, named, base, ir, ty).st);
  }

  /** Code that `generate_IR` accepts is laid out in order, with no forward label left open. */
  lemma {:induction false} GenFine(g: Graph, path: set<Ptr>, s: St, t: Ptr, named: bool)
    requires WellFormed(g) && (t == 0 || t in g) && Fine(s) && CurOk(s)
    ensures var o := Gen(g, path, s, t, named); o.res.Done? ==> Extended(s, o.st)
    decreases |g.Keys - path|, 0
  {
    hide GenFields, GenTag, LoadFrom, Fine;
    LaidRefl(s);
    if t == 0 {
    } else if t in s.objects {
      if s.objects[t].place.Some? { LoadFromFine(s, s.objects[t].place.value, |s.objects[t].ty|); }
    } else if t !in path {
      hide Laid;
      var inner := path + {t};
      assert g.Keys - path == g.Keys - inner + {t};
      GenFieldsFine(g, inner, s, s, t, CompiledFields(g[t]), 0, []);
      var f := GenFields(g, inner, s, t, CompiledFields(g[t]), 0, []);
      if f.error.None? {
        GenTagFine(g, inner, f.st, t, named, |s.stack|, f.infos);
        var o := GenTag(g, inner, f.st, t, named, |s.stack|, f.infos);
        if o.res.Done? { ExtendedTrans(s, f.st, o.st); }
      }
    }
  }

  lemma {:induction false} GenFieldsFine(g: Graph, path: set<Ptr>, s0: St, s: St, t: Ptr, fields: seq<Field>, i: nat,
      infos: seq<Info>)
    requires WellFormed(g) && t in g && t in path && CurOk(s)
    requires fields == CompiledFields(g[t]) && i <= |fields| && |infos| == i
    requires Extended(s0, s)
    ensures var f := GenFields(g, path, s, t, fields, i, infos); f.error.None? ==> Extended(s0, f.st)
    decreases |g.Keys - path|, |fields| - i + 1
  {
    hide Gen, Fine, Laid;
    if i < |fields| {
      CompiledFieldsAreChildren(g[t], i);
      GenFine(g, path, s, fields[i].ptr, false);
      var r := Gen(g, path, s, fields[i].ptr, false);
      if r.res.Done? {
        ExtendedTrans(s0, s, r.st);
        GenFieldsFine(g, path, s0, r.st, t, fields, i + 1, infos + [r.res.info]);
      }
    }
  }

  lemma GenGotoFine(s: St, t: Ptr, named: bool, base: nat, dest: Ptr)
    requires Fine(s) && CurOk(s)
    ensures var o := GenGoto(s, t, named, base, dest); o.res.Done? ==> Extended(s, o.st)
  {
    if dest in s.labels {
      var next := |s.fn.blocks|;
      var term := if s.labels[dest].isForward then Br(s.labels[dest].block)
                  else SpendFuel(s.labels[dest].block, next);
      var s1 := NewBlock(s);
      assert s.order[..|s.order|] == s.order;
      NewBlockFine(s);
      NewBlockIsAhead(s, next);
      hide Ordered, Finish;
      SetTermFine(s1, term);
      LaidTrans(s, s1, SetTerm(s1, term));
      PositionFine(s, SetTerm(s1, term), next);
      hide Fine, Laid;
      FinishExtended(s, Position(SetTerm(s1, term), next), t, named, base, Lit([]), []);
    }
  }

  lemma {:induction false} GenTagFine(g: Graph, path: set<Ptr>, s: St, t: Ptr, named: bool, base: nat, f: seq<Info>)
    requires WellFormed(g) && t in g && t in path && CurOk(s) && Fine(s)
    requires |f| == |CompiledFields(g[t])|
    ensures var o := GenTag(g, path, s, t, named, base, f); o.res.Done? ==> Extended(s, o.st)
    decreases |g.Keys - path|, |Children(g[t])| + 2
  {
    hide Fine, Laid, Finish, EmitArith, EmitConcatenate, WritePlace, GenGoto, GenBlock, GenIf, GenLabel;
    LaidRefl(s);
    match g[t]
    case Imv(ty, ws) => FinishExtended(s, s, t, named, base, Lit(ws), ty);
    case Block(elems) => GenBlockFine(g, path, s, s, t, elems, 0, named, NULL_INFO);
    case Arith(op, _) =>
      var args := seq(|f|, i requires 0 <= i < |f| => f[i].ir);
      EmitArithFine(s, op, args);
      FinishExtended(s, EmitArith(s, op, args).0, t, named, base, EmitArith(s, op, args).1, INT);
    case If(_, thn, els) => GenIfFine(g, path, s, t, named, base, f[0].ir, thn, els);
    case Concatenate(_, _) =>
      if f[0].ty + f[1].ty == [] {
        FinishExtended(s, s, t, named, base, Lit([]), []);
      } else {
        EmitConcatenateAppends(s, f[0], f[1]);
        var (s1, x) := EmitConcatenate(s, f[0], f[1]);
        AppendsFine(s, s1);
        FinishExtended(s, s1, t, named, base, x, f[0].ty + f[1].ty);
      }
    case Store(_, _) =>
      if f[0].place.Some? {
        WritePlaceAppends(s, f[0].place.value, f[1].ir, |f[1].ty|, 0);
        var s1 := WritePlace(s, f[0].place.value, f[1].ir, |f[1].ty|, 0);
        AppendsFine(s, s1);
        FinishExtended(s, s1, t, named, base, Lit([]), []);
      }
    case Label(body) => GenLabelFine(g, path, s, t, named, base, body);
    case Goto(dest) => GenGotoFine(s, t, named, base, dest);
    case RunFunction(_) =>
      var s1 := Emit(s, Call(s.regs, f[0].ir)).(regs := s.regs + 1);
      assert Appends(s, s1);
      AppendsFine(s, s1);
      FinishExtended(s, s1, t, named, base, Reg(s.regs), [DynamicObject]);
  }

  lemma {:induction false} GenBlockFine(g: Graph, path: set<Ptr>, s0: St, s: St, t: Ptr, elems: seq<Ptr>, i: nat,
      named: bool, last: Info)
    requires WellFormed(g) && t in g && t in path && CurOk(s)
    requires g[t] == Ast.Block(elems) && i <= |elems|
    requires Extended(s0, s)
    ensures var o := GenBlock(g, path, s, t, elems, i, named, last); o.res.Done? ==> Extended(s0, o.st)
    decreases |g.Keys - path|, |elems| - i + 1
  {
    hide Gen, LoadFrom, Fine, Laid;
    if i == |elems| {
      if !named && last.place.Some? {
        LoadFromFine(s, last.place.value, |last.ty|);
        ExtendedTrans(s0, s, LoadFrom(s, last.place.value, |last.ty|).0);
      }
    } else {
      assert elems[i] in Children(g[t]);
      GenFine(g, path, s, elems[i], true);
      var r := Gen(g, path, s, elems[i], true);
      if r.res.Done? {
        ExtendedTrans(s0, s, r.st);
        GenBlockFine(g, path, s0, r.st, t, elems, i + 1, named, r.res.info);
      }
    }
  }

  /** The end of a branch, when the blocks it names are still ahead. */
  lemma BranchEndFine(s0: St, r: St, scope: nat, merge: nat, next: nat)
    requires Extended(s0, r) && CurOk(r)
    requires |s0.fn.blocks| <= merge < |r.fn.blocks| && |s0.fn.blocks| <= next < |r.fn.blocks|
    requires merge !in r.order && next !in r.order
    requires forall x | x in r.labels :: r.labels[x].block != next
    ensures var e := BranchEnd(r, scope, merge, next);
      Extended(s0, e) && e.order == r.order + [next] && e.labels == r.labels
  {
    var c := CodeGen.ClearStack(r, scope);
    ClearStackFine(r, scope);
    LaidTrans(s0, r, c);
    hide Fine, Laid;
    Jumps(s0, c, merge, next);
  }

  lemma {:induction false} GenIfFine(g: Graph, path: set<Ptr>, s: St, t: Ptr, named: bool, base: nat, cond: Operand,
      thn: Ptr, els: Ptr)
    requires WellFormed(g) && t in g && t in path && CurOk(s) && Fine(s)
    requires g[t].If? && thn == g[t].thn && els == g[t].els
    ensures var o := GenIf(g, path, s, t, named, base, cond, thn, els); o.res.Done? ==> Extended(s, o.st)
    decreases |g.Keys - path|, 1
  {
    hide Gen, Fine, Laid, IfHead, BranchEnd, IfTail;
    assert thn in Children(g[t]) && els in Children(g[t]);
    var scope, n := |s.stack|, |s.fn.blocks|;
    var h := IfHead(s, cond);
    IfHeadFine(s, cond);
    GenFine(g, path, h, thn, false);
    var r0 := Gen(g, path, h, thn, false);
    if r0.res.Done? {
      FirstArm(s, h, r0.st);
      ExtendedTrans(s, h, r0.st);
      BranchEndFine(s, r0.st, scope, n, n + 2);
      var h1 := BranchEnd(r0.st, scope, n, n + 2);
      GenFine(g, path, h1, els, false);
      var r1 := Gen(g, path, h1, els, false);
      if r1.res.Done? {
        ExtendedTrans(s, h1, r1.st);
        KeptAside(h1, r1.st, n);
        BranchEndFine(s, r1.st, scope, n, n);
        IfTailFine(s, BranchEnd(r1.st, scope, n, n), t, named, base, JoinTypes(r0.res.info.ty, r1.res.info.ty),
                   r0.res.info.ir, r0.st.cur, r1.res.info.ir, r1.st.cur);
      }
    }
  }

  lemma FirstArm(s: St, h: St, r: St)
    requires BranchOpen(s, h) && Extended(h, r)
    ensures var n := |s.fn.blocks|;
      n + 2 < |r.fn.blocks| && n !in r.order && n + 2 !in r.order &&
      forall x | x in r.labels :: r.labels[x].block != n && r.labels[x].block != n + 2
  {
    KeptAside(h, r, |s.fn.blocks|);
    KeptAside(h, r, |s.fn.blocks| + 2);
  }

  lemma IfTailFine(s0: St, s: St, t: Ptr, named: bool, base: nat, ty: Ty, x0: Operand, from0: nat, x1: Operand,
      from1: nat)
    requires Extended(s0, s) && CurOk(s)
    ensures Extended(s0, IfTail(s, t, named, base, ty, x0, from0, x1, from1).st)
  {
    hide Fine, Laid, Finish;
    if ty == [] {
      FinishExtended(s0, s, t, named, base, Lit([]), []);
    } else {
      var s1 := Emit(s, Phi(s.regs, x0, from0, x1, from1)).(regs := s.regs + 1);
      assert Appends(s, s1);
      AppendsFine(s, s1);
      ExtendedTrans(s0, s, s1);
      FinishExtended(s0, s1, t, named, base, Reg(s.regs), ty);
    }
  }

  lemma PlaceLabel(s0: St, s: St, t: Ptr, l: LabelInfo)
    requires Fine(s) && Laid(s0, s) && t !in s0.labels && t !in s.labels
    requires |s0.fn.blocks| <= l.block < |s.fn.blocks| && l.block in s.order && !l.isForward
    ensures Extended(s0, s.(labels := s.labels[t := l]))
  {
    hide Ordered;
  }

  /** After a label's body its block is still ahead, and no other label has it. */
  lemma BodyDone(s: St, s1: St, r: St, t: Ptr, base: nat)
    requires Fine(s) && t !in s.labels
    requires s1 == NewBlock(s).(labels := s.labels[t := LabelInfo(|s.fn.blocks|, base, true)])
    requires Extended(s1, r)
    ensures var block := |s.fn.blocks|; var r1 := r.(labels := r.labels - {t});
      && block < |r.fn.blocks| && block !in r.order
      && Fine(r1) && Laid(s, r1)
      && forall x | x in r1.labels :: r1.labels[x].block != block
  {
    hide Ordered, Appends;
    var block, r1 := |s.fn.blocks|, r.(labels := r.labels - {t});
    assert r.labels[t] == s1.labels[t];
    assert LabelsPlaced(r1.labels, r1.order);
    forall x | x in r1.labels ensures r1.labels[x].block != block {
      if x in s.labels { assert s1.labels[x] == s.labels[x]; } else { assert x !in s1.labels; }
    }
    hide LabelsPlaced;
    forall b | b in r.order ensures b in s.order || b >= block {
      assert b in s1.order || b >= |s1.fn.blocks|;
    }
    forall x | x in s.labels ensures x in r1.labels && r1.labels[x] == s.labels[x] {
      assert s1.labels[x] == s.labels[x];
    }
    forall x | x in r1.labels && x !in s.labels ensures r1.labels[x].block >= block && !r1.labels[x].isForward {
      assert x !in s1.labels;
    }
  }

  /** While a label's body is compiled the label is forward; afterwards it is in place. */
  lemma LabelEndFine(s: St, s1: St, r: St, t: Ptr, base: nat)
    requires Fine(s) && t !in s.labels
    requires s1 == NewBlock(s).(labels := s.labels[t := LabelInfo(|s.fn.blocks|, base, true)])
    requires Extended(s1, r) && CurOk(r)
    ensures |s.fn.blocks| < |r.fn.blocks| && Extended(s, LabelEnd(r, t, |s.fn.blocks|, base))
  {
    hide Fine, Laid;
    var block, l := |s.fn.blocks|, LabelInfo(|s.fn.blocks|, base, false);
    var r1 := r.(labels := r.labels - {t});
    BodyDone(s, s1, r, t, base);
    Jumps(s, r1, block, block);
    var e1 := Position(SetTerm(r1, Br(block)), block);
    PlaceLabel(s, e1, t, l);
    assert (r.labels - {t})[t := l] == r.labels[t := l];
  }

  lemma LabelEntered(s: St, t: Ptr, base: nat)
    requires Fine(s) && t !in s.labels
    ensures Fine(NewBlock(s).(labels := s.labels[t := LabelInfo(|s.fn.blocks|, base, true)]))
  {
    hide Ordered;
    NewBlockFine(s);
    NewBlockIsAhead(s, |s.fn.blocks|);
  }

  lemma {:induction false} GenLabelFine(g: Graph, path: set<Ptr>, s: St, t: Ptr, named: bool, base: nat, body: Ptr)
    requires WellFormed(g) && t in g && t in path && CurOk(s) && Fine(s)
    requires g[t] == Label(body)
    ensures var o := GenLabel(g, path, s, t, named, base, body); o.res.Done? ==> Extended(s, o.st)
    decreases |g.Keys - path|, 1
  {
    hide Gen, Fine, Laid, Finish, LabelEnd, Extended;
    assert body in Children(g[t]);
    var block := |s.fn.blocks|;
    if t !in s.labels {
      var s1 := NewBlock(s).(labels := s.labels[t := LabelInfo(block, base, true)]);
      LabelEntered(s, t, base);
      GenFine(g, path, s1, body, false);
      var r := Gen(g, path, s1, body, false);
      if r.res.Done? {
        LabelEndFine(s, s1, r.st, t, base);
        FinishExtended(s, LabelEnd(r.st, t, block, base), t, named, base, Lit([]), []);
      }
    }
  }

  /** The block of a label is the last one placed: everything that its body emitted, whatever
      jumps to the label included, comes before it. */
  lemma LabelComesLast(g: Graph, path: set<Ptr>, s: St, t: Ptr, named: bool, base: nat, body: Ptr)
    requires WellFormed(g) && t in g && t in path && CurOk(s) && Fine(s)
    requires g[t] == Label(body) && GenLabel(g, path, s, t, named, base, body).res.Done?
    ensures var o := GenLabel(g, path, s, t, named, base, body).st; var n := |o.order| - 1;
      && t !in s.labels && t in o.labels && o.labels[t] == LabelInfo(|s.fn.blocks|, base, false)
      && n >= 0 && o.order[n] == o.cur == |s.fn.blocks| && |s.fn.blocks| !in o.order[..n]
  {
    GenLabelFine(g, path, s, t, named, base, body);
    assert body in Children(g[t]);
    hide Gen, Laid, LabelsPlaced, Ordered;
    var o := GenLabel(g, path, s, t, named, base, body).st;
    PlacedOnce(o);
  }

  lemma PlacedOnce(s: St)
    requires OrderOk(s)
    ensures s.cur !in s.order[..|s.order| - 1]
  {
  }
}
