/**
 Scope discipline of the compiler: what every call of `generate_IR` keeps, on success and on
 every error, and that it rejects exactly the cyclic graphs with an infinite-loop error.
 */
module Scopes {
  import opened Options
  import opened Words
  import opened IR
  import opened Ast
  import opened CodeGen

  ghost predicate NoDuplicates(stack: seq<Ptr>) {
    forall i, j | 0 <= i < j < |stack| :: stack[i] != stack[j]
  }

  /** The map's keys are the entries of the scope stack, and no AST is entered twice. */
  ghost predicate ScopeOk(stack: seq<Ptr>, objects: map<Ptr, Info>) {
    NoDuplicates(stack) && objects.Keys == set x | x in stack
  }

  ghost predicate OperandOk(regs: nat, o: Operand) {
    o.Reg? ==> o.r < regs
  }

  ghost predicate InfoFits(slots: seq<nat>, regs: nat, info: Info) {
    && OperandOk(regs, info.ir)
    && (info.place.Some? ==> info.place.value < |slots| && slots[info.place.value] == |info.ty|)
  }

  ghost predicate InfoOk(s: St, info: Info) {
    InfoFits(s.fn.slots, s.regs, info)
  }

  /** Living values are not empty, are where they are said to be, and do not share a slot. */
  ghost predicate ObjectsOk(objects: map<Ptr, Info>, slots: seq<nat>, regs: nat) {
    && (forall x | x in objects :: |objects[x].ty| > 0 && InfoFits(slots, regs, objects[x]))
    && (forall x, y | x in objects && y in objects && x != y ::
          objects[x].place.Some? ==> objects[x].place != objects[y].place)
  }

  ghost predicate LabelsOk(labels: map<Ptr, LabelInfo>, blocks: nat) {
    forall x | x in labels :: labels[x].block < blocks
  }

  ghost predicate Valid(s: St) {
    && CurOk(s)
    && s.fn.blocks[s.cur].term.None?
    && ScopeOk(s.stack, s.objects)
    && ObjectsOk(s.objects, s.fn.slots, s.regs)
    && LabelsOk(s.labels, |s.fn.blocks|)
  }

  lemma ValidCur(s: St)
    requires Valid(s)
    ensures CurOk(s) && ScopeOk(s.stack, s.objects)
  {
  }

  /** s' is s after some emission: only the current block and new blocks are touched, and
      everything that was living still is, unchanged. */
  ghost predicate Grows(s: St, s': St) {
    && |s.fn.blocks| <= |s'.fn.blocks|
    && CurOk(s) && s.fn.blocks[s.cur].body <= s'.fn.blocks[s.cur].body
    && (forall i | 0 <= i < |s.fn.blocks| && i != s.cur :: s'.fn.blocks[i] == s.fn.blocks[i])
    && (s'.cur == s.cur || s'.cur >= |s.fn.blocks|)
    && s.fn.slots <= s'.fn.slots
    && s.regs <= s'.regs
    && s.stack <= s'.stack
    && (forall x | x in s.objects :: x in s'.objects && s'.objects[x] == s.objects[x])
  }

  /** As Grows, within one block and one scope. */
  ghost predicate Appends(s: St, s': St) {
    && CurOk(s) && |s.fn.blocks| == |s'.fn.blocks|
    && s'.cur == s.cur
    && s.fn.blocks[s.cur].body <= s'.fn.blocks[s.cur].body
    && s'.fn.blocks[s.cur].term == s.fn.blocks[s.cur].term
    && (forall i | 0 <= i < |s.fn.blocks| && i != s.cur :: s'.fn.blocks[i] == s.fn.blocks[i])
    && s'.fn.slots == s.fn.slots
    && s.regs <= s'.regs
    && s'.objects == s.objects && s'.stack == s.stack && s'.labels == s.labels && s'.order == s.order
  }

  lemma AppendsGrows(s: St, s': St)
    requires Valid(s) && Appends(s, s')
    ensures Valid(s') && Grows(s, s')
  {
    MoreRoom(s.objects, s.fn.slots, s.regs, s'.fn.slots, s'.regs);
  }

  lemma GrowsTrans(s: St, s1: St, s2: St)
    requires Grows(s, s1) && Grows(s1, s2)
    ensures Grows(s, s2)
  {
    forall i | 0 <= i < |s.fn.blocks| && i != s.cur ensures s2.fn.blocks[i] == s.fn.blocks[i] {
      assert s1.fn.blocks[i] == s.fn.blocks[i];
    }
    if s1.cur != s.cur {
      assert s2.fn.blocks[s.cur] == s1.fn.blocks[s.cur];
    }
  }

  /** A block other than the current one is left alone, and stays not current if it existed. */
  lemma GrowsLeaves(s: St, s': St, i: nat)
    requires Grows(s, s') && i < |s.fn.blocks| && i != s.cur
    ensures i < |s'.fn.blocks| && s'.fn.blocks[i] == s.fn.blocks[i] && s'.cur != i
  {
  }

  lemma GrowsExtends(s: St, s': St)
    requires Valid(s) && Grows(s, s')
    ensures Extends(s.fn, s'.fn)
  {
  }

  // ---------------------------------------------------------------- straight-line emission

  lemma {:induction false} WritePlaceAppends(s: St, slot: nat, val: Operand, size: nat, k: nat)
    requires CurOk(s)
    ensures Appends(s, WritePlace(s, slot, val, size, k))
    decreases size - k
  {
    if k < size {
      var (s1, x) := WordOf(s, val, size, k);
      WritePlaceAppends(Emit(s1, IR.Store(slot, k, x)), slot, val, size, k + 1);
    }
  }

  lemma {:induction false} WriteAggregateAppends(s: St, target: Operand, offset: nat, val: Operand, size: nat, k: nat)
    requires CurOk(s)
    ensures Appends(s, WriteAggregate(s, target, offset, val, size, k).0)
    ensures var r := WriteAggregate(s, target, offset, val, size, k);
      OperandOk(s.regs, target) ==> OperandOk(r.0.regs, r.1)
    decreases size - k
  {
    if k < size {
      var (s1, x) := WordOf(s, val, size, k);
      var s2 := Emit(s1, Insert(s1.regs, target, x, offset + k)).(regs := s1.regs + 1);
      WriteAggregateAppends(s2, Reg(s1.regs), offset, val, size, k + 1);
    }
  }

  lemma {:induction false} LoadAggregateAppends(s: St, slot: nat, target: Operand, size: nat, k: nat)
    requires CurOk(s) && OperandOk(s.regs, target)
    ensures Appends(s, LoadAggregate(s, slot, target, size, k).0)
    ensures var r := LoadAggregate(s, slot, target, size, k); OperandOk(r.0.regs, r.1)
    decreases size - k
  {
    if k < size {
      var s1 := Emit(s, Load(s.regs, slot, k)).(regs := s.regs + 1);
      var s2 := Emit(s1, Insert(s1.regs, target, Reg(s.regs), k)).(regs := s1.regs + 1);
      LoadAggregateAppends(s2, slot, Reg(s1.regs), size, k + 1);
    }
  }

  lemma LoadFromAppends(s: St, slot: nat, size: nat)
    requires CurOk(s)
    ensures Appends(s, LoadFrom(s, slot, size).0)
    ensures var r := LoadFrom(s, slot, size); OperandOk(r.0.regs, r.1)
  {
    if size != 1 { LoadAggregateAppends(s, slot, Undef(size), size, 0); }
  }

  lemma EmitConcatenateAppends(s: St, a: Info, b: Info)
    requires CurOk(s)
    ensures Appends(s, EmitConcatenate(s, a, b).0)
    ensures OperandOk(s.regs, a.ir) && OperandOk(s.regs, b.ir) ==>
      var r := EmitConcatenate(s, a, b); OperandOk(r.0.regs, r.1)
  {
    hide WriteAggregate;
    var total := |a.ty| + |b.ty|;
    if total != 1 {
      WriteAggregateAppends(s, Undef(total), 0, a.ir, |a.ty|, 0);
      var (s1, x) := WriteAggregate(s, Undef(total), 0, a.ir, |a.ty|, 0);
      WriteAggregateAppends(s1, x, |a.ty|, b.ir, |b.ty|, 0);
    }
  }

  // ---------------------------------------------------------------- branches

  /** The scope is untouched and the code only grows. */
  ghost predicate SameScope(s: St, s': St) {
    s'.objects == s.objects && s'.stack == s.stack && s'.labels == s.labels && s'.fn.slots == s.fn.slots
  }

  lemma GuardedGrows(s: St, cond: Operand, op: BinOp, x: Operand, y: Operand, other: Operand)
    requires Valid(s)
    ensures var r := Guarded(s, cond, op, x, y, other);
      Valid(r.0) && Grows(s, r.0) && SameScope(s, r.0) && OperandOk(r.0.regs, r.1)
  {
  }

  /** Emission that does not touch the scope. */
  ghost predicate Computes(s: St, r: (St, Operand)) {
    Valid(r.0) && Grows(s, r.0) && SameScope(s, r.0) && OperandOk(r.0.regs, r.1)
  }

  lemma CheckedGrows(s: St, cmp: BinOp, limit: Word, op: BinOp, x: Operand, y: Operand, other: Operand)
    requires Valid(s)
    ensures Computes(s, Checked(s, cmp, limit, op, x, y, other))
  {
    var (s1, c) := EmitCompute(s, cmp, y, Lit([limit]));
    AppendsGrows(s, s1);
    GuardedGrows(s1, c, op, x, y, other);
    GrowsTrans(s, s1, Guarded(s1, c, op, x, y, other).0);
  }

  lemma EmitComputeGrows(s: St, op: BinOp, x: Operand, y: Operand)
    requires Valid(s)
    ensures Computes(s, EmitCompute(s, op, x, y))
  {
    AppendsGrows(s, EmitCompute(s, op, x, y).0);
  }

  lemma EmitArithGrows(s: St, op: ArithOp, args: seq<Operand>)
    requires Valid(s) && |args| == Arity(op)
    ensures Computes(s, EmitArith(s, op, args))
  {
    match op
    case Zero =>
    case Increment => EmitComputeGrows(s, IR.Add, args[0], Lit([1]));
    case Decrement => EmitComputeGrows(s, IR.Sub, args[0], Lit([1]));
    case Add => EmitComputeGrows(s, IR.Add, args[0], args[1]);
    case Subtract => EmitComputeGrows(s, IR.Sub, args[0], args[1]);
    case Multiply => EmitComputeGrows(s, IR.Mul, args[0], args[1]);
    case LessU => EmitComputeGrows(s, ULT, args[0], args[1]);
    case LessS => EmitComputeGrows(s, SLT, args[0], args[1]);
    case UDiv => CheckedGrows(s, NE, 0, IR.UDiv, args[0], args[1], Lit([0]));
    case URem => CheckedGrows(s, NE, 0, IR.URem, args[0], args[1], args[0]);
    case UShr => CheckedGrows(s, ULT, 64, LShr, args[0], args[1], Lit([0]));
    case SShr => CheckedGrows(s, ULT, 64, AShr, args[0], args[1], Lit([0]));
    case Shl => CheckedGrows(s, ULT, 64, IR.Shl, args[0], args[1], Lit([0]));
  }

  // ---------------------------------------------------------------- scopes

  lemma MemberOfParts(stack: seq<Ptr>, n: nat, x: Ptr)
    requires n <= |stack|
    ensures x in stack <==> x in stack[..n] || x in stack[n..]
    ensures NoDuplicates(stack) ==> !(x in stack[..n] && x in stack[n..])
  {
    assert stack == stack[..n] + stack[n..];
  }

  lemma ClearStackRestores(s0: St, s: St, n: nat)
    requires ScopeOk(s0.stack, s0.objects) && ScopeOk(s.stack, s.objects)
    requires s0.stack <= s.stack && n == |s0.stack|
    requires forall x | x in s0.objects :: x in s.objects && s.objects[x] == s0.objects[x]
    ensures ClearStack(s, n).stack == s0.stack && ClearStack(s, n).objects == s0.objects
  {
    hide NoDuplicates;
    var c := ClearStack(s, n);
    assert s.stack[..n] == s0.stack;
    forall x ensures x in c.objects <==> x in s0.objects {
      MemberOfParts(s.stack, n, x);
    }
  }

  lemma ClearStackKeeps(s0: St, s: St, n: nat)
    requires Valid(s) && Grows(s0, s) && ScopeOk(s0.stack, s0.objects) && n == |s0.stack|
    ensures Valid(ClearStack(s, n)) && Grows(s0, ClearStack(s, n))
    ensures ClearStack(s, n).stack == s0.stack && ClearStack(s, n).objects == s0.objects
  {
    ClearStackRestores(s0, s, n);
    hide ScopeOk;
    var c := ClearStack(s, n);
    forall x | x in c.objects ensures x in s.objects && c.objects[x] == s.objects[x] {}
  }

  lemma EnterScope(stack: seq<Ptr>, objects: map<Ptr, Info>, t: Ptr, info: Info)
    requires ScopeOk(stack, objects) && t !in objects
    ensures ScopeOk(stack + [t], objects[t := info])
  {
  }

  lemma NewLivingKeeps(s: St, t: Ptr, info: Info)
    requires Valid(s) && |info.ty| > 0 && InfoOk(s, info)
    requires info.place.Some? ==> forall x | x in s.objects :: s.objects[x].place != info.place
    ensures Valid(NewLiving(s, t, info)) && Grows(s, NewLiving(s, t, info))
  {
    if t !in s.objects {
      EnterScope(s.stack, s.objects, t, info);
      hide ScopeOk;
      assert ObjectsOk(s.objects[t := info], s.fn.slots, s.regs);
    }
  }

  lemma MoreRoom(objects: map<Ptr, Info>, slots: seq<nat>, regs: nat, slots': seq<nat>, regs': nat)
    requires ObjectsOk(objects, slots, regs) && slots <= slots' && regs <= regs'
    ensures ObjectsOk(objects, slots', regs')
  {
    forall x | x in objects ensures InfoFits(slots', regs', objects[x]) {
      assert InfoFits(slots, regs, objects[x]);
    }
  }

  lemma FinishNamedGrows(s0: St, s: St, t: Ptr, ir: Operand, ty: Ty)
    requires Valid(s0) && Valid(s) && Grows(s0, s) && OperandOk(s.regs, ir)
    requires ty != []
    ensures var slot := |s.fn.slots|; var info := Info(ty, Lit([]), Some(slot));
      var s3 := WritePlace(s.(fn := s.fn.(slots := s.fn.slots + [|ty|])), slot, ir, |ty|, 0);
      Valid(NewLiving(s3, t, info)) && Grows(s0, NewLiving(s3, t, info)) && InfoOk(NewLiving(s3, t, info), info)
  {
    hide ScopeOk, LabelsOk, WritePlace;
    var slot := |s.fn.slots|;
    var info := Info(ty, Lit([]), Some(slot));
    var s2 := s.(fn := s.fn.(slots := s.fn.slots + [|ty|]));
    MoreRoom(s.objects, s.fn.slots, s.regs, s2.fn.slots, s2.regs);
    WritePlaceAppends(s2, slot, ir, |ty|, 0);
    var s3 := WritePlace(s2, slot, ir, |ty|, 0);
    forall x | x in s3.objects ensures s3.objects[x].place != info.place {
      assert InfoFits(s.fn.slots, s.regs, s.objects[x]);
    }
    hide ObjectsOk;
    assert Valid(s2) && Grows(s0, s2);
    AppendsGrows(s2, s3);
    GrowsTrans(s0, s2, s3);
    NewLivingKeeps(s3, t, info);
    GrowsTrans(s0, s3, NewLiving(s3, t, info));
  }

  /** What a finished AST leaves behind, seen from the state s0 in which it was started. */
  lemma FinishGrows(s0: St, s: St, t: Ptr, named: bool, base: nat, ir: Operand, ty: Ty)
    requires Valid(s0) && Valid(s) && Grows(s0, s) && base == |s0.stack| && OperandOk(s.regs, ir)
    ensures var o := Finish(s, t, named, base, ir, ty);
      Valid(o.st) && Grows(s0, o.st) && InfoOk(o.st, o.res.info)
    ensures forall x | x in Finish(s, t, named, base, ir, ty).st.objects :: x in s.objects || x == t
  {
    hide ScopeOk, ObjectsOk;
    if named {
      ClearStackKeeps(s0, s, base);
      var s1 := ClearStack(s, base);
      if ty != [] {
        FinishNamedGrows(s0, s1, t, ir, ty);
        WritePlaceAppends(s1.(fn := s1.fn.(slots := s1.fn.slots + [|ty|])), |s1.fn.slots|, ir, |ty|, 0);
      }
    } else if ty != [] {
      NewLivingKeeps(s, t, Info(ty, ir, None));
      GrowsTrans(s0, s, NewLiving(s, t, Info(ty, ir, None)));
    }
  }

  // ---------------------------------------------------------------- generate_IR

  /** No AST that is being compiled becomes living before it is finished. */
  ghost predicate PathNotLiving(path: set<Ptr>, s: St, s': St) {
    forall x | x in path && x !in s.objects :: x !in s'.objects
  }

  ghost predicate Keeps(path: set<Ptr>, s: St, o: Out) {
    && Valid(o.st) && Grows(s, o.st) && PathNotLiving(path, s, o.st)
    && (o.res.Done? ==> InfoOk(o.st, o.res.info))
  }

  /** The states between the start s0 of an AST and its end. */
  ghost predicate Between(path: set<Ptr>, s0: St, s: St) {
    Valid(s0) && Valid(s) && Grows(s0, s) && PathNotLiving(path, s0, s)
  }

  lemma BetweenTrans(path: set<Ptr>, s0: St, s: St, o: Out)
    requires Between(path, s0, s) && Keeps(path, s, o)
    ensures Keeps(path, s0, o) && Between(path, s0, o.st)
  {
    GrowsTrans(s0, s, o.st);
  }

  lemma BetweenGrows(path: set<Ptr>, s0: St, s: St, s': St)
    requires Between(path, s0, s) && Valid(s') && Grows(s, s') && s'.objects == s.objects
    ensures Between(path, s0, s')
  {
    GrowsTrans(s0, s, s');
  }

  lemma FinishKeeps(path: set<Ptr>, s0: St, s: St, t: Ptr, named: bool, ir: Operand, ty: Ty)
    requires Between(path, s0, s) && OperandOk(s.regs, ir)
    ensures Keeps(path - {t}, s0, Finish(s, t, named, |s0.stack|, ir, ty))
  {
    FinishGrows(s0, s, t, named, |s0.stack|, ir, ty);
  }

  lemma AppendsKeeps(path: set<Ptr>, s0: St, s: St, s': St)
    requires Between(path, s0, s) && Appends(s, s')
    ensures Between(path, s0, s')
  {
    AppendsGrows(s, s');
    BetweenGrows(path, s0, s, s');
  }

  lemma GenGotoKeeps(path: set<Ptr>, s0: St, s: St, t: Ptr, named: bool, dest: Ptr)
    requires Between(path, s0, s)
    ensures Keeps(path - {t}, s0, GenGoto(s, t, named, |s0.stack|, dest))
  {
    if dest in s.labels {
      var next := |s.fn.blocks|;
      var term := if s.labels[dest].isForward then Br(s.labels[dest].block)
                  else SpendFuel(s.labels[dest].block, next);
      var s1 := Position(SetTerm(NewBlock(s), term), next);
      BetweenGrows(path, s0, s, s1);
      FinishKeeps(path, s0, s1, t, named, Lit([]), []);
    }
  }

  lemma ArithKeeps(path: set<Ptr>, s0: St, s: St, t: Ptr, named: bool, op: ArithOp, args: seq<Operand>)
    requires Between(path, s0, s) && |args| == Arity(op)
    ensures var (s1, x) := EmitArith(s, op, args);
      Keeps(path - {t}, s0, Finish(s1, t, named, |s0.stack|, x, INT))
  {
    hide ScopeOk, ObjectsOk, LabelsOk;
    EmitArithGrows(s, op, args);
    var (s1, x) := EmitArith(s, op, args);
    BetweenGrows(path, s0, s, s1);
    FinishKeeps(path, s0, s1, t, named, x, INT);
  }

  lemma ConcatenateKeeps(path: set<Ptr>, s0: St, s: St, t: Ptr, named: bool, a: Info, b: Info)
    requires Between(path, s0, s) && InfoOk(s, a) && InfoOk(s, b)
    ensures Keeps(path - {t}, s0, Finish(s, t, named, |s0.stack|, Lit([]), []))
    ensures var (s1, x) := EmitConcatenate(s, a, b);
      Keeps(path - {t}, s0, Finish(s1, t, named, |s0.stack|, x, a.ty + b.ty))
  {
    hide ScopeOk, ObjectsOk, LabelsOk;
    FinishKeeps(path, s0, s, t, named, Lit([]), []);
    EmitConcatenateAppends(s, a, b);
    var (s1, x) := EmitConcatenate(s, a, b);
    AppendsKeeps(path, s0, s, s1);
    FinishKeeps(path, s0, s1, t, named, x, a.ty + b.ty);
  }

  lemma StoreKeeps(path: set<Ptr>, s0: St, s: St, t: Ptr, named: bool, a: Info, b: Info)
    requires Between(path, s0, s)
    ensures a.place.Some? ==>
      var s1 := WritePlace(s, a.place.value, b.ir, |b.ty|, 0);
      Keeps(path - {t}, s0, Finish(s1, t, named, |s0.stack|, Lit([]), []))
    ensures Between(path - {t}, s0, s)
  {
    hide ScopeOk, ObjectsOk, LabelsOk;
    if a.place.Some? {
      WritePlaceAppends(s, a.place.value, b.ir, |b.ty|, 0);
      var s1 := WritePlace(s, a.place.value, b.ir, |b.ty|, 0);
      AppendsKeeps(path, s0, s, s1);
      FinishKeeps(path, s0, s1, t, named, Lit([]), []);
    }
  }

  lemma RunFunctionKeeps(path: set<Ptr>, s0: St, s: St, t: Ptr, named: bool, callee: Operand)
    requires Between(path, s0, s)
    ensures var s1 := Emit(s, Call(s.regs, callee)).(regs := s.regs + 1);
      Keeps(path - {t}, s0, Finish(s1, t, named, |s0.stack|, Reg(s.regs), [DynamicObject]))
  {
    hide ScopeOk, ObjectsOk, LabelsOk;
    var s1 := Emit(s, Call(s.regs, callee)).(regs := s.regs + 1);
    AppendsKeeps(path, s0, s, s1);
    FinishKeeps(path, s0, s1, t, named, Reg(s.regs), [DynamicObject]);
  }

  lemma NewBlockKeeps(path: set<Ptr>, s0: St, s: St)
    requires Between(path, s0, s)
    ensures Between(path, s0, NewBlock(s)) && Grows(s, NewBlock(s))
    ensures NewBlock(s).fn.blocks[|s.fn.blocks|] == IR.Block([], None)
  {
    hide ScopeOk, ObjectsOk;
    BetweenGrows(path, s0, s, NewBlock(s));
  }

  lemma KeepsLess(path: set<Ptr>, t: Ptr, s0: St, o: Out)
    requires Keeps(path, s0, o)
    ensures Keeps(path - {t}, s0, o)
  {
  }

  ghost predicate InfosOk(s: St, infos: seq<Info>) {
    forall i | 0 <= i < |infos| :: InfoOk(s, infos[i])
  }

  lemma LookupKeeps(path: set<Ptr>, s: St, info: Info)
    requires Valid(s) && InfoOk(s, info) && info.place.Some?
    ensures var (s1, x) := LoadFrom(s, info.place.value, |info.ty|);
      Keeps(path, s, Out(s1, Done(info.(ir := x))))
  {
    hide ScopeOk, ObjectsOk, LabelsOk, LoadFrom;
    LoadFromAppends(s, info.place.value, |info.ty|);
    AppendsGrows(s, LoadFrom(s, info.place.value, |info.ty|).0);
  }

  lemma BetweenRefl(path: set<Ptr>, s: St)
    requires Valid(s)
    ensures Between(path, s, s)
  {
  }

  /** Every call of `generate_IR`, with or without an error, keeps the scope discipline. */
  lemma {:induction false} GenKeeps(g: Graph, path: set<Ptr>, s: St, t: Ptr, named: bool)
    requires WellFormed(g) && (t == 0 || t in g) && Valid(s)
    ensures Keeps(path, s, Gen(g, path, s, t, named))
    decreases |g.Keys - path|, 0
  {
    hide ScopeOk, LabelsOk, GenFields, GenTag, LoadFrom;
    if t == 0 || t in path {
    } else if t in s.objects {
    } else {
      hide Valid, Grows, PathNotLiving;
      var inner := path + {t};
      assert g.Keys - path == g.Keys - inner + {t};
      assert inner - {t} == path;
      BetweenRefl(inner, s);
      GenFieldsKeeps(g, inner, s, s, t, CompiledFields(g[t]), 0, []);
      var f := GenFields(g, inner, s, t, CompiledFields(g[t]), 0, []);
      if f.error.Some? {
        KeepsLess(inner, t, s, Out(f.st, f.error.value));
      } else {
        GenTagKeeps(g, inner, s, f.st, t, named, f.infos);
      }
    }
    if t != 0 && t in s.objects && s.objects[t].place.Some? { LookupKeeps(path, s, s.objects[t]); }
  }

  lemma {:induction false} GenFieldsKeeps(g: Graph, path: set<Ptr>, s0: St, s: St, t: Ptr, fields: seq<Field>, i: nat,
      infos: seq<Info>)
    requires WellFormed(g) && t in g && t in path
    requires fields == CompiledFields(g[t]) && i <= |fields| && |infos| == i
    requires Between(path, s0, s) && InfosOk(s, infos)
    ensures var f := GenFields(g, path, s, t, fields, i, infos);
      Between(path, s0, f.st) && InfosOk(f.st, f.infos)
    decreases |g.Keys - path|, |fields| - i + 1
  {
    hide ScopeOk, ObjectsOk, LabelsOk, PathNotLiving, Gen;
    if i < |fields| {
      CompiledFieldsAreChildren(g[t], i);
      GenKeeps(g, path, s, fields[i].ptr, false);
      var r := Gen(g, path, s, fields[i].ptr, false);
      BetweenTrans(path, s0, s, r);
      if r.res.Done? {
        GenFieldsKeeps(g, path, s0, r.st, t, fields, i + 1, infos + [r.res.info]);
      }
    }
  }

  lemma {:induction false} GenTagKeeps(g: Graph, path: set<Ptr>, s0: St, s: St, t: Ptr, named: bool, f: seq<Info>)
    requires WellFormed(g) && t in g && t in path
    requires |f| == |CompiledFields(g[t])|
    requires Between(path, s0, s) && InfosOk(s, f)
    ensures Keeps(path - {t}, s0, GenTag(g, path, s, t, named, |s0.stack|, f))
    decreases |g.Keys - path|, |Children(g[t])| + 2
  {
    hide ScopeOk, ObjectsOk, LabelsOk, Grows, Finish, EmitArith, EmitConcatenate, Gen, GenFields;
    match g[t]
    case Imv(ty, ws) => FinishKeeps(path, s0, s, t, named, Lit(ws), ty);
    case Block(elems) => GenBlockKeeps(g, path, s0, s, t, elems, 0, named, NULL_INFO);
    case Arith(op, _) =>
      ArithKeeps(path, s0, s, t, named, op, seq(|f|, i requires 0 <= i < |f| => f[i].ir));
    case If(_, thn, els) => GenIfKeeps(g, path, s0, s, t, named, f[0].ir, thn, els);
    case Concatenate(_, _) => ConcatenateKeeps(path, s0, s, t, named, f[0], f[1]);
    case Store(_, _) => StoreKeeps(path, s0, s, t, named, f[0], f[1]);
    case Label(body) => GenLabelKeeps(g, path, s0, s, t, named, body);
    case Goto(dest) => GenGotoKeeps(path, s0, s, t, named, dest);
    case RunFunction(_) =>
      RunFunctionKeeps(path, s0, s, t, named, f[0].ir);
  }

  lemma {:induction false} GenBlockKeeps(g: Graph, path: set<Ptr>, s0: St, s: St, t: Ptr, elems: seq<Ptr>, i: nat,
      named: bool, last: Info)
    requires WellFormed(g) && t in g && t in path
    requires g[t] == Ast.Block(elems) && i <= |elems|
    requires Between(path, s0, s) && InfoOk(s, last)
    ensures Keeps(path, s0, GenBlock(g, path, s, t, elems, i, named, last))
    decreases |g.Keys - path|, |elems| - i + 1
  {
    hide ScopeOk, ObjectsOk, LabelsOk, PathNotLiving, Gen, LoadFrom;
    if i == |elems| {
      if !named && last.place.Some? {
        LoadFromAppends(s, last.place.value, |last.ty|);
        var s1 := LoadFrom(s, last.place.value, |last.ty|).0;
        AppendsGrows(s, s1);
        BetweenGrows(path, s0, s, s1);
      }
    } else {
      assert elems[i] in Children(g[t]);
      GenKeeps(g, path, s, elems[i], true);
      var r := Gen(g, path, s, elems[i], true);
      BetweenTrans(path, s0, s, r);
      if r.res.Done? {
        GenBlockKeeps(g, path, s0, r.st, t, elems, i + 1, named, r.res.info);
      }
    }
  }

  lemma IfHeadGrows(s: St, cond: Operand)
    requires Valid(s)
    ensures var h := IfHead(s, cond); Valid(h) && Grows(s, h) && SameScope(s, h)
    ensures var h := IfHead(s, cond); var n := |s.fn.blocks|;
      |h.fn.blocks| == n + 3 && h.cur == n + 1 && (forall i | n <= i < n + 3 :: h.fn.blocks[i] == IR.Block([], None))
  {
  }

  lemma BranchEndKeeps(path: set<Ptr>, s0: St, s: St, r: St, merge: nat, next: nat)
    requires Between(path, s0, s) && Valid(r)
    requires |s.fn.blocks| <= next < |r.fn.blocks| && next != r.cur && r.fn.blocks[next] == IR.Block([], None)
    requires Grows(s, r)
    ensures Between(path, s0, BranchEnd(r, |s.stack|, merge, next))
    ensures Grows(s, BranchEnd(r, |s.stack|, merge, next))
    ensures var e := BranchEnd(r, |s.stack|, merge, next); e.stack == s.stack && e.objects == s.objects
    ensures var e := BranchEnd(r, |s.stack|, merge, next);
      e.cur == next && |e.fn.blocks| == |r.fn.blocks| &&
      forall i | 0 <= i < |r.fn.blocks| && i != r.cur :: e.fn.blocks[i] == r.fn.blocks[i]
  {
    hide ScopeOk, ObjectsOk;
    ClearStackKeeps(s, r, |s.stack|);
    var c := ClearStack(r, |s.stack|);
    var e := BranchEnd(r, |s.stack|, merge, next);
    assert Grows(s, e);
    assert Valid(e);
    BetweenGrows(path, s0, s, e);
  }

  lemma {:induction false} GenIfKeeps(g: Graph, path: set<Ptr>, s0: St, s: St, t: Ptr, named: bool, cond: Operand,
      thn: Ptr, els: Ptr)
    requires WellFormed(g) && t in g && t in path
    requires g[t].If? && thn == g[t].thn && els == g[t].els
    requires Between(path, s0, s) && OperandOk(s.regs, cond)
    ensures Keeps(path - {t}, s0, GenIf(g, path, s, t, named, |s0.stack|, cond, thn, els))
    decreases |g.Keys - path|, 1
  {
    hide Valid, Grows, PathNotLiving, Gen, IfHead, BranchEnd, IfTail, JoinTypes;
    assert thn in Children(g[t]) && els in Children(g[t]);
    var n, scope := |s.fn.blocks|, |s.stack|;
    IfHeadGrows(s, cond);
    var h := IfHead(s, cond);
    BetweenGrows(path, s0, s, h);
    GenKeeps(g, path, h, thn, false);
    var r0 := Gen(g, path, h, thn, false);
    BetweenTrans(path, s0, h, r0);
    KeepsLess(path, t, s0, r0);
    if r0.res.Done? {
      GrowsTrans(s, h, r0.st);
      GrowsLeaves(h, r0.st, n);
      GrowsLeaves(h, r0.st, n + 2);
      BranchEndKeeps(path, s0, s, r0.st, n, n + 2);
      var h1 := BranchEnd(r0.st, scope, n, n + 2);
      GenKeeps(g, path, h1, els, false);
      var r1 := Gen(g, path, h1, els, false);
      ElseKeeps(path, s0, s, h1, r1, t);
      if r1.res.Done? {
        GenIfEnd(path, s0, BranchEnd(r1.st, scope, n, n), t, named,
                 JoinTypes(r0.res.info.ty, r1.res.info.ty), r0.res.info.ir, r0.st.cur, r1.res.info.ir, r1.st.cur);
      }
    }
  }

  /** After the second branch. */
  lemma ElseKeeps(path: set<Ptr>, s0: St, s: St, h1: St, r1: Out, t: Ptr)
    requires Between(path, s0, s) && Between(path, s0, h1) && Grows(s, h1) && Keeps(path, h1, r1)
    requires var n := |s.fn.blocks|; n < |h1.fn.blocks| && h1.cur != n && h1.fn.blocks[n] == IR.Block([], None)
    ensures Keeps(path - {t}, s0, r1) && |s.fn.blocks| < |r1.st.fn.blocks|
    ensures Between(path, s0, BranchEnd(r1.st, |s.stack|, |s.fn.blocks|, |s.fn.blocks|))
  {
    hide Valid, Grows, PathNotLiving, BranchEnd;
    var n := |s.fn.blocks|;
    BetweenTrans(path, s0, h1, r1);
    KeepsLess(path, t, s0, r1);
    GrowsTrans(s, h1, r1.st);
    GrowsLeaves(h1, r1.st, n);
    BranchEndKeeps(path, s0, s, r1.st, n, n);
  }

  /** After the first branch of an `if` that was entered in s: the second is yet to come. */
  ghost predicate BranchDone(s: St, r: St) {
    var n := |s.fn.blocks|;
    && Valid(s) && Valid(r) && Grows(s, r) && n + 2 < |r.fn.blocks| && r.cur != n && r.cur != n + 2
    && r.fn.blocks[n] == IR.Block([], None) && r.fn.blocks[n + 2] == IR.Block([], None)
  }

  lemma FirstBranch(g: Graph, path: set<Ptr>, s: St, cond: Operand, thn: Ptr)
    requires WellFormed(g) && (thn == 0 || thn in g) && Valid(s)
    ensures Valid(IfHead(s, cond)) && BranchDone(s, Gen(g, path, IfHead(s, cond), thn, false).st)
  {
    hide Valid, Grows, PathNotLiving, Gen, IfHead, InfoOk, WellFormed;
    IfHeadGrows(s, cond);
    var h, n := IfHead(s, cond), |s.fn.blocks|;
    GenKeeps(g, path, h, thn, false);
    var r0 := Gen(g, path, h, thn, false);
    GrowsTrans(s, h, r0.st);
    GrowsLeaves(h, r0.st, n);
    GrowsLeaves(h, r0.st, n + 2);
  }

  lemma SecondBranch(g: Graph, path: set<Ptr>, s: St, r: St, els: Ptr)
    requires WellFormed(g) && (els == 0 || els in g) && BranchDone(s, r)
    ensures var n := |s.fn.blocks|; var h1 := BranchEnd(r, |s.stack|, n, n + 2); var r1 := Gen(g, path, h1, els, false);
      && Valid(h1) && n < |r1.st.fn.blocks| && Valid(BranchEnd(r1.st, |s.stack|, n, n))
  {
    hide Valid, Grows, PathNotLiving, Gen, BranchEnd, InfoOk, WellFormed;
    var n := |s.fn.blocks|;
    ValidCur(r);
    BetweenRefl(path, s);
    BranchEndKeeps(path, s, s, r, n, n + 2);
    var h1 := BranchEnd(r, |s.stack|, n, n + 2);
    GenKeeps(g, path, h1, els, false);
    var r1 := Gen(g, path, h1, els, false);
    GrowsTrans(s, h1, r1.st);
    GrowsLeaves(h1, r1.st, n);
    BranchEndKeeps(path, s, s, r1.st, n, n);
  }

  lemma GenIfEnd(path: set<Ptr>, s0: St, s: St, t: Ptr, named: bool, ty: Ty, x0: Operand, from0: nat, x1: Operand,
      from1: nat)
    requires Between(path, s0, s)
    ensures Keeps(path - {t}, s0, IfTail(s, t, named, |s0.stack|, ty, x0, from0, x1, from1))
  {
    hide ScopeOk, ObjectsOk, LabelsOk, PathNotLiving, Finish;
    if ty == [] {
      FinishKeeps(path, s0, s, t, named, Lit([]), []);
    } else {
      var s6 := Emit(s, Phi(s.regs, x0, from0, x1, from1)).(regs := s.regs + 1);
      assert Appends(s, s6);
      AppendsKeeps(path, s0, s, s6);
      FinishKeeps(path, s0, s6, t, named, Reg(s.regs), ty);
    }
  }

  lemma LabelEndKeeps(path: set<Ptr>, s0: St, s: St, r: St, t: Ptr, block: nat)
    requires Between(path, s0, s) && Between(path, s0, r) && Grows(s, r)
    requires |s.fn.blocks| <= block < |r.fn.blocks| && block != r.cur && r.fn.blocks[block] == IR.Block([], None)
    ensures Between(path, s0, LabelEnd(r, t, block, |s0.stack|))
  {
    hide ScopeOk, ObjectsOk;
    var e := LabelEnd(r, t, block, |s0.stack|);
    assert Valid(e);
    assert Grows(s, e);
    GrowsTrans(s0, s, e);
  }

  lemma {:induction false} GenLabelKeeps(g: Graph, path: set<Ptr>, s0: St, s: St, t: Ptr, named: bool, body: Ptr)
    requires WellFormed(g) && t in g && t in path
    requires g[t] == Label(body)
    requires Between(path, s0, s)
    ensures Keeps(path - {t}, s0, GenLabel(g, path, s, t, named, |s0.stack|, body))
    decreases |g.Keys - path|, 1
  {
    hide ScopeOk, ObjectsOk, Grows, PathNotLiving, Gen, LabelEnd, Finish;
    assert body in Children(g[t]);
    var block := |s.fn.blocks|;
    var s1 := NewBlock(s);
    NewBlockKeeps(path, s0, s);
    KeepsLess(path, t, s0, Out(s1, Failed(LabelDuplication, t, 0)));
    if t !in s.labels {
      var s2 := s1.(labels := s1.labels[t := LabelInfo(block, |s0.stack|, true)]);
      BetweenGrows(path, s0, s1, s2);
      GenKeeps(g, path, s2, body, false);
      var r := Gen(g, path, s2, body, false);
      BetweenTrans(path, s0, s2, r);
      KeepsLess(path, t, s0, r);
      if r.res.Done? {
        GrowsLeaves(s2, r.st, block);
        GrowsTrans(s, s2, r.st);
        LabelEndKeeps(path, s0, s, r.st, t, block);
        FinishKeeps(path, s0, LabelEnd(r.st, t, block, |s0.stack|), t, named, Lit([]), []);
      }
    }
  }
}
