/**
 Accepted code does not get stuck: a program of functions whose labels are elements of blocks,
 with nothing but blocks and labels around them, runs until its first function returns, or until
 it calls a word that is no function.
 */
module NeverStuck {
  import opened Options
  import opened Words
  import opened IR
  import opened Ast
  import opened CodeGen
  import opened Scopes
  import opened Defined
  import opened DefinedCode
  import opened Fuel

  // ---------------------------------------------------------------- one activation

  /** Registers have their number of words, and those of d are defined. */
  ghost predicate RegsOk(a: Notes, regs: map<nat, seq<Word>>, d: set<nat>) {
    && (forall r | r in regs && r in a.sizes :: |regs[r]| == a.sizes[r])
    && (forall r | r in d && r in a.sizes :: r in regs)
  }

  ghost predicate GuardHolds(g: Guard, regs: map<nat, seq<Word>>, u: Word) {
    var y := Word1(Val(regs, u, g.y));
    y.Some? && Apply(g.cmp, y.value, g.limit).Some? && Apply(g.cmp, y.value, g.limit).value != 0
  }

  /** The result of a comparison that was just made is in its register. */
  ghost predicate Computed(i: Instr, regs: map<nat, seq<Word>>, u: Word) {
    i.Compute? && i.a != Reg(i.dst) && i.b != Reg(i.dst) ==>
      var x, y := Word1(Val(regs, u, i.a)), Word1(Val(regs, u, i.b));
      x.Some? && y.Some? && Word1(Val(regs, u, Reg(i.dst))) == Apply(i.op, x.value, y.value)
  }

  /** All noted blocks have an end, and nothing is needed at the start of the first. */
  ghost predicate Complete(fn: Fn, a: Notes) {
    && CodeFits(fn, a) && (forall b | b in a.blocks && b < |fn.blocks| :: fn.blocks[b].term.Some?)
    && 0 in a.blocks && a.blocks[0] == Note({}, None, None)
  }

  /** What holds of an activation at its place in the code. */
  ghost predicate MachineOk(fn: Fn, a: Notes, u: Word, m: Machine) {
    && m.block in a.blocks && m.block < |fn.blocks| && m.pc <= |fn.blocks[m.block].body|
    && RegsOk(a, m.regs, DefsAt(fn, a, m.block, m.pc))
    && (a.blocks[m.block].from.Some? ==>
          && m.prev in a.blocks[m.block].from.value && m.prev in a.blocks && m.prev < |fn.blocks|
          && RegsOk(a, m.regs, DefsEnd(fn, a, m.prev)))
    && (m.pc == 0 && a.blocks[m.block].guard.Some? ==> GuardHolds(a.blocks[m.block].guard.value, m.regs, u))
    && (m.pc > 0 ==> Computed(fn.blocks[m.block].body[m.pc - 1], m.regs, u))
  }

  lemma OperandValue(a: Notes, regs: map<nat, seq<Word>>, u: Word, d: set<nat>, o: Operand, size: nat)
    requires RegsOk(a, regs, d) && OperandIs(a, d, o, size)
    ensures Val(regs, u, o).Some? && |Val(regs, u, o).value| == size
    ensures size == 1 ==> Word1(Val(regs, u, o)).Some?
  {
  }

  /** A register is set. */
  lemma RegsSet(a: Notes, regs: map<nat, seq<Word>>, d: set<nat>, r: nat, ws: seq<Word>)
    requires RegsOk(a, regs, d) && Sized(a, r, |ws|)
    ensures RegsOk(a, regs[r := ws], d + {r})
  {
  }

  lemma RegsLess(a: Notes, regs: map<nat, seq<Word>>, d: set<nat>, d': set<nat>)
    requires RegsOk(a, regs, d) && d' <= d
    ensures RegsOk(a, regs, d')
  {
  }

  lemma DefsNext(fn: Fn, a: Notes, b: nat, k: nat)
    requires b in a.blocks && b < |fn.blocks| && k < |fn.blocks[b].body|
    ensures DefsAt(fn, a, b, k + 1) == DefsAt(fn, a, b, k) + DstOf(fn.blocks[b].body[k])
  {
    var body := fn.blocks[b].body;
    assert body[..k + 1] == body[..k] + [body[k]];
    DstsMore(body[..k], body[k]);
  }

  /** After an instruction that sets a register. */
  lemma SetRegOk(fn: Fn, a: Notes, u: Word, m: Machine, ws: seq<Word>)
    requires MachineOk(fn, a, u, m) && m.pc < |fn.blocks[m.block].body|
    requires var i := fn.blocks[m.block].body[m.pc];
      && !i.Store? && Sized(a, i.dst, |ws|) && Computed(i, m.regs[i.dst := ws], u)
    ensures MachineOk(fn, a, u, SetReg(m, fn.blocks[m.block].body[m.pc].dst, ws))
  {
    hide Computed, GuardHolds, Dsts, RegsOk, DefsAt, DefsEnd;
    var i := fn.blocks[m.block].body[m.pc];
    DefsNext(fn, a, m.block, m.pc);
    RegsSet(a, m.regs, DefsAt(fn, a, m.block, m.pc), i.dst, ws);
    if a.blocks[m.block].from.Some? {
      RegsSet(a, m.regs, DefsEnd(fn, a, m.prev), i.dst, ws);
      RegsLess(a, m.regs[i.dst := ws], DefsEnd(fn, a, m.prev) + {i.dst}, DefsEnd(fn, a, m.prev));
    }
  }

  lemma StoreOk(fn: Fn, a: Notes, u: Word, m: Machine, mem: map<(nat, nat), Word>)
    requires MachineOk(fn, a, u, m) && m.pc < |fn.blocks[m.block].body| && fn.blocks[m.block].body[m.pc].Store?
    ensures MachineOk(fn, a, u, m.(pc := m.pc + 1, mem := mem))
  {
    hide GuardHolds, Dsts, RegsOk, DefsAt, DefsEnd;
    DefsNext(fn, a, m.block, m.pc);
    assert DefsAt(fn, a, m.block, m.pc) + {} == DefsAt(fn, a, m.block, m.pc);
  }

  /** What an operator that has no result for some operands needs. */
  lemma GuardedApplies(op: BinOp, g: Guard, regs: map<nat, seq<Word>>, u: Word, x: Word)
    requires Partial(op) && Protects(op, g) && GuardHolds(g, regs, u)
    ensures Apply(op, x, Word1(Val(regs, u, g.y)).value).Some?
  {
  }

  lemma ComputeOk(fn: Fn, a: Notes, u: Word, m: Machine)
    requires MachineOk(fn, a, u, m) && m.pc < |fn.blocks[m.block].body| && fn.blocks[m.block].body[m.pc].Compute?
    requires InstrFits(fn, a, a.blocks[m.block], m.pc, DefsAt(fn, a, m.block, m.pc), fn.blocks[m.block].body[m.pc])
    ensures var m' := Exec(fn, u, m, fn.blocks[m.block].body[m.pc]); m'.Some? && MachineOk(fn, a, u, m'.value)
  {
    hide MachineOk, DefsAt, Apply;
    MachineFacts(fn, a, u, m);
    var i := fn.blocks[m.block].body[m.pc];
    var d := DefsAt(fn, a, m.block, m.pc);
    OperandValue(a, m.regs, u, d, i.a, 1);
    OperandValue(a, m.regs, u, d, i.b, 1);
    var x, y := Word1(Val(m.regs, u, i.a)).value, Word1(Val(m.regs, u, i.b)).value;
    if Partial(i.op) {
      GuardedApplies(i.op, a.blocks[m.block].guard.value, m.regs, u, x);
    } else {
      Applies(i.op, x, y);
    }
    var z := Apply(i.op, x, y).value;
    SetRegOk(fn, a, u, m, [z]);
  }

  lemma Applies(op: BinOp, x: Word, y: Word)
    requires !Partial(op)
    ensures Apply(op, x, y).Some?
  {
  }

  lemma MachineFacts(fn: Fn, a: Notes, u: Word, m: Machine)
    requires MachineOk(fn, a, u, m)
    ensures m.block in a.blocks && m.block < |fn.blocks| && m.pc <= |fn.blocks[m.block].body|
    ensures RegsOk(a, m.regs, DefsAt(fn, a, m.block, m.pc))
    ensures m.pc == 0 && a.blocks[m.block].guard.Some? ==> GuardHolds(a.blocks[m.block].guard.value, m.regs, u)
  {
  }

  lemma PhiOk(fn: Fn, a: Notes, u: Word, m: Machine)
    requires MachineOk(fn, a, u, m) && m.pc < |fn.blocks[m.block].body| && fn.blocks[m.block].body[m.pc].Phi?
    requires InstrFits(fn, a, a.blocks[m.block], m.pc, DefsAt(fn, a, m.block, m.pc), fn.blocks[m.block].body[m.pc])
    ensures var m' := Exec(fn, u, m, fn.blocks[m.block].body[m.pc]); m'.Some? && MachineOk(fn, a, u, m'.value)
  {
    hide DefsAt, DefsEnd, RegsOk, GuardHolds;
    var i := fn.blocks[m.block].body[m.pc];
    var o := if m.prev == i.from0 then i.val0 else i.val1;
    assert PhiHolds(fn, a, m.prev, o, i.dst);
    OperandValue(a, m.regs, u, DefsEnd(fn, a, m.prev), o, SizeOf(a, o));
    hide MachineOk;
    SetRegOk(fn, a, u, m, Val(m.regs, u, o).value);
  }

  /** Every instruction but a call has a result. */
  lemma InstrOk(fn: Fn, a: Notes, u: Word, m: Machine)
    requires MachineOk(fn, a, u, m) && m.pc < |fn.blocks[m.block].body| && !fn.blocks[m.block].body[m.pc].Call?
    requires InstrFits(fn, a, a.blocks[m.block], m.pc, DefsAt(fn, a, m.block, m.pc), fn.blocks[m.block].body[m.pc])
    ensures var m' := Exec(fn, u, m, fn.blocks[m.block].body[m.pc]); m'.Some? && MachineOk(fn, a, u, m'.value)
  {
    hide MachineOk, DefsAt, DefsEnd, Dsts;
    MachineFacts(fn, a, u, m);
    var d := DefsAt(fn, a, m.block, m.pc);
    match fn.blocks[m.block].body[m.pc]
    case Compute(_, _, _, _) => ComputeOk(fn, a, u, m);
    case Extract(dst, agg, index) =>
      OperandValue(a, m.regs, u, d, agg, SizeOf(a, agg));
      SetRegOk(fn, a, u, m, [Val(m.regs, u, agg).value[index]]);
    case Insert(dst, agg, elem, index) =>
      OperandValue(a, m.regs, u, d, agg, SizeOf(a, agg));
      OperandValue(a, m.regs, u, d, elem, 1);
      SetRegOk(fn, a, u, m, Val(m.regs, u, agg).value[index := Word1(Val(m.regs, u, elem)).value]);
    case Load(dst, slot, offset) =>
      SetRegOk(fn, a, u, m, [if (slot, offset) in m.mem then m.mem[(slot, offset)] else u]);
    case Store(slot, offset, val) =>
      OperandValue(a, m.regs, u, d, val, 1);
      StoreOk(fn, a, u, m, m.mem[(slot, offset) := Word1(Val(m.regs, u, val)).value]);
    case Phi(_, _, _, _, _) => PhiOk(fn, a, u, m);
  }

  /** A jump to a block that nothing is asked of. */
  lemma JumpOk(fn: Fn, a: Notes, u: Word, m: Machine, c: nat)
    requires MachineOk(fn, a, u, m) && m.pc == |fn.blocks[m.block].body| && CodeFits(fn, a)
    requires Edge(fn, a, m.block, c)
    requires a.blocks[c].guard.Some? ==> GuardHolds(a.blocks[c].guard.value, m.regs, u)
    ensures MachineOk(fn, a, u, Jump(m, c))
  {
    hide GuardHolds, Dsts, RegsOk, Computed, BlockFits;
    assert fn.blocks[m.block].body[..m.pc] == fn.blocks[m.block].body;
    assert DefsAt(fn, a, m.block, m.pc) == DefsEnd(fn, a, m.block);
    EmptyDsts();
    assert c < |fn.blocks|;
    assert fn.blocks[c].body[..0] == [];
    assert DefsAt(fn, a, c, 0) == a.blocks[c].defs + {} == a.blocks[c].defs;
    RegsLess(a, m.regs, DefsEnd(fn, a, m.block), a.blocks[c].defs);
  }

  /** A comparison that was true is what its guard says. */
  lemma GuardMet(fn: Fn, a: Notes, u: Word, m: Machine, cond: Operand, g: Guard)
    requires MachineOk(fn, a, u, m) && m.pc == |fn.blocks[m.block].body|
    requires Compares(fn.blocks[m.block].body, cond, g)
    requires Word1(Val(m.regs, u, cond)).Some? && Word1(Val(m.regs, u, cond)).value != 0
    ensures GuardHolds(g, m.regs, u)
  {
    hide RegsOk, DefsAt, DefsEnd, Apply;
    assert Computed(fn.blocks[m.block].body[m.pc - 1], m.regs, u);
    assert Word1(Val(m.regs, u, Lit([g.limit]))) == Some(g.limit);
  }

  /** A conditional branch. */
  lemma BranchOk(fn: Fn, a: Notes, u: Word, m: Machine, cond: Operand, c0: nat, c1: nat)
    requires MachineOk(fn, a, u, m) && CodeFits(fn, a) && m.pc == |fn.blocks[m.block].body|
    requires fn.blocks[m.block].term == Some(CondBr(cond, c0, c1)) && TermFits(fn, a, m.block, CondBr(cond, c0, c1))
    ensures Step(fn, u, m).Some? && MachineOk(fn, a, u, Step(fn, u, m).value)
  {
    hide MachineOk, RegsOk, GuardHolds, Dsts, Compares, CodeFits, Val, Word1;
    MachineFacts(fn, a, u, m);
    assert fn.blocks[m.block].body[..m.pc] == fn.blocks[m.block].body;
    OperandValue(a, m.regs, u, DefsEnd(fn, a, m.block), cond, 1);
    if Word1(Val(m.regs, u, cond)).value != 0 {
      if a.blocks[c0].guard.Some? { GuardMet(fn, a, u, m, cond, a.blocks[c0].guard.value); }
      JumpOk(fn, a, u, m, c0);
    } else {
      JumpOk(fn, a, u, m, c1);
    }
  }

  /** The end of a block: control goes on, unless it is a return. */
  lemma TermOk(fn: Fn, a: Notes, u: Word, m: Machine)
    requires MachineOk(fn, a, u, m) && Complete(fn, a) && m.pc == |fn.blocks[m.block].body| && !AtReturn(fn, m)
    ensures Step(fn, u, m).Some? && MachineOk(fn, a, u, Step(fn, u, m).value)
  {
    hide MachineOk, GuardHolds, DefsEnd, DefsAt, InstrFits, TermFits, Val, CodeFits, Edge;
    MachineFacts(fn, a, u, m);
    NotedTerm(fn, a, m.block);
    var t := fn.blocks[m.block].term.value;
    match t
    case Br(c) =>
      PlainJumps(fn, a, m.block, t, c);
      JumpOk(fn, a, u, m, c);
    case CondBr(cond, c0, c1) => BranchOk(fn, a, u, m, cond, c0, c1);
    case SpendFuel(back, fail) =>
      PlainJumps(fn, a, m.block, t, back);
      PlainJumps(fn, a, m.block, t, fail);
      JumpOk(fn, a, u, m, back);
      JumpOk(fn, a, u, m, fail);
      FuelIsFree(fn, a, u, Jump(m, back), m.fuel - 1);
    case Ret(_) =>
  }

  lemma NotedTerm(fn: Fn, a: Notes, b: nat)
    requires Complete(fn, a) && b in a.blocks && b < |fn.blocks|
    ensures CodeFits(fn, a) && fn.blocks[b].term.Some? && TermFits(fn, a, b, fn.blocks[b].term.value)
  {
    hide InstrFits, TermFits;
    assert BlockFits(fn, a, b);
  }

  lemma PlainJumps(fn: Fn, a: Notes, b: nat, t: Term, c: nat)
    requires b in a.blocks && b < |fn.blocks| && TermFits(fn, a, b, t)
    requires t == Br(c) || (t.SpendFuel? && (c == t.back || c == t.fail))
    ensures Edge(fn, a, b, c) && a.blocks[c].guard.None?
  {
  }

  lemma FuelIsFree(fn: Fn, a: Notes, u: Word, m: Machine, fuel: int)
    requires MachineOk(fn, a, u, m)
    ensures fuel >= 0 ==> MachineOk(fn, a, u, m.(fuel := fuel))
  {
  }

  /** An activation that is neither at a call nor at a return has a next step. */
  lemma StepOk(fn: Fn, a: Notes, u: Word, m: Machine)
    requires MachineOk(fn, a, u, m) && Complete(fn, a) && !AtReturn(fn, m)
    requires m.pc < |fn.blocks[m.block].body| ==> !fn.blocks[m.block].body[m.pc].Call?
    ensures Step(fn, u, m).Some? && MachineOk(fn, a, u, Step(fn, u, m).value)
  {
    hide MachineOk, Dsts, Exec;
    MachineFacts(fn, a, u, m);
    if m.pc < |fn.blocks[m.block].body| {
      assert BlockFits(fn, a, m.block);
      InstrOk(fn, a, u, m);
    } else {
      TermOk(fn, a, u, m);
    }
  }

  /** A call has a callee, and goes on with any answer. */
  lemma CallOk(fn: Fn, a: Notes, u: Word, m: Machine, answer: Word)
    requires MachineOk(fn, a, u, m) && Complete(fn, a)
    requires m.pc < |fn.blocks[m.block].body| && fn.blocks[m.block].body[m.pc].Call?
    ensures var i := fn.blocks[m.block].body[m.pc];
      Word1(Val(m.regs, u, i.callee)).Some? && MachineOk(fn, a, u, SetReg(m, i.dst, [answer]))
  {
    hide MachineOk, Dsts;
    MachineFacts(fn, a, u, m);
    var i := fn.blocks[m.block].body[m.pc];
    assert BlockFits(fn, a, m.block);
    assert InstrFits(fn, a, a.blocks[m.block], m.pc, DefsAt(fn, a, m.block, m.pc), i);
    OperandValue(a, m.regs, u, DefsAt(fn, a, m.block, m.pc), i.callee, 1);
    SetRegOk(fn, a, u, m, [answer]);
  }

  lemma FreshOk(fn: Fn, a: Notes, u: Word, callee: Word)
    requires Complete(fn, a)
    ensures MachineOk(fn, a, u, Fresh(callee).m)
  {
    hide BlockFits;
    assert fn.blocks[0].body[..0] == [];
    assert Dsts([]) == {};
  }

  // ---------------------------------------------------------------- whole programs

  type AllNotes = map<Word, Notes>

  ghost predicate ProgramComplete(p: Program, a: AllNotes) {
    forall k | k in p :: k in a && Complete(p[k].fn, a[k])
  }

  ghost predicate FrameFits(p: Program, a: AllNotes, u: Word, f: Frame) {
    f.callee in p && f.callee in a && MachineOk(p[f.callee].fn, a[f.callee], u, f.m)
  }

  /** All activations are where their code allows, and all but the innermost wait for a call. */
  ghost predicate SysFits(p: Program, a: AllNotes, u: Word, s: Sys) {
    && |s.frames| > 0
    && (forall i | 0 <= i < |s.frames| :: FrameFits(p, a, u, s.frames[i]))
    && (forall i | 0 <= i < |s.frames| - 1 :: CurrentCall(p[s.frames[i].callee], s.frames[i].m).Some?)
  }

  /** The first function returns. */
  predicate Returns(p: Program, s: Sys) {
    |s.frames| == 1 && s.frames[0].callee in p && AtReturn(p[s.frames[0].callee].fn, s.frames[0].m)
  }

  /** There is fuel, and the innermost activation calls a word that is not null and no function. */
  predicate CallsNothing(p: Program, u: Word, s: Sys) {
    |s.frames| > 0 && s.fuel != 0 && s.frames[|s.frames| - 1].callee in p
    && var f := s.frames[|s.frames| - 1];
       var i := CurrentCall(p[f.callee], f.m);
       i.Some? && Word1(Val(f.m.regs, u, i.value.callee)).Some?
       && Word1(Val(f.m.regs, u, i.value.callee)).value != 0 && Word1(Val(f.m.regs, u, i.value.callee)).value !in p
  }

  /** One step of a program: it is there, unless the first function returns or a word that is no
      function is called. */
  lemma SysStepOk(p: Program, a: AllNotes, u: Word, s: Sys, answer: Word)
    requires ProgramComplete(p, a) && SysFits(p, a, u, s) && !Returns(p, s) && !CallsNothing(p, u, s)
    ensures SysStep(p, u, s, answer).Some? && SysFits(p, a, u, SysStep(p, u, s, answer).value)
  {
    hide MachineOk, Complete, Step, Val;
    var n := |s.frames|;
    var f := s.frames[n - 1];
    assert FrameFits(p, a, u, f);
    var c, notes := p[f.callee], a[f.callee];
    MachineFacts(c.fn, notes, u, f.m);
    var i := CurrentCall(c, f.m);
    if i.Some? {
      CallOk(c.fn, notes, u, f.m, 0);
      EnterOk(p, a, u, s);
    } else if AtReturn(c.fn, f.m) {
      LeaveOk(p, a, u, s, answer);
    } else {
      FuelIsFree(c.fn, notes, u, f.m, s.fuel);
      StepOk(c.fn, notes, u, f.m.(fuel := s.fuel));
      var m' := Step(c.fn, u, f.m.(fuel := s.fuel)).value;
      FuelIsFree(c.fn, notes, u, m', 0);
      ReplaceTop(p, a, u, s, f.(m := m'.(fuel := 0)), m'.fuel);
    }
  }

  /** The innermost activation went on. */
  lemma ReplaceTop(p: Program, a: AllNotes, u: Word, s: Sys, f: Frame, fuel: nat)
    requires SysFits(p, a, u, s) && FrameFits(p, a, u, f)
    ensures SysFits(p, a, u, Sys(Push(s.frames[..|s.frames| - 1], f), fuel))
  {
    hide FrameFits;
  }

  lemma EnterOk(p: Program, a: AllNotes, u: Word, s: Sys)
    requires ProgramComplete(p, a) && SysFits(p, a, u, s) && !CallsNothing(p, u, s)
    requires var f := s.frames[|s.frames| - 1]; f.callee in p && CurrentCall(p[f.callee], f.m).Some?
    ensures var f := s.frames[|s.frames| - 1]; var e := EnterCall(p, u, s, f, CurrentCall(p[f.callee], f.m).value);
      e.Some? && SysFits(p, a, u, e.value)
  {
    hide MachineOk, Complete, Val;
    var n := |s.frames|;
    var f := s.frames[n - 1];
    assert FrameFits(p, a, u, f);
    var i := CurrentCall(p[f.callee], f.m).value;
    CallOk(p[f.callee].fn, a[f.callee], u, f.m, 0);
    var callee := Word1(Val(f.m.regs, u, i.callee)).value;
    if callee == 0 || s.fuel == 0 {
      ReplaceTop(p, a, u, s, f.(m := SetReg(f.m, i.dst, [0])), s.fuel);
    } else {
      FreshOk(p[callee].fn, a[callee], u, callee);
      hide FrameFits;
      assert FrameFits(p, a, u, Fresh(callee)) by { FreshFits(p, a, u, callee); }
    }
  }

  lemma FreshFits(p: Program, a: AllNotes, u: Word, callee: Word)
    requires ProgramComplete(p, a) && callee in p
    ensures FrameFits(p, a, u, Fresh(callee))
  {
    hide MachineOk, Complete;
    FreshOk(p[callee].fn, a[callee], u, callee);
  }

  lemma LeaveOk(p: Program, a: AllNotes, u: Word, s: Sys, answer: Word)
    requires ProgramComplete(p, a) && SysFits(p, a, u, s) && |s.frames| > 1
    ensures LeaveCall(p, s, answer).Some? && SysFits(p, a, u, LeaveCall(p, s, answer).value)
  {
    hide MachineOk, Complete;
    var n := |s.frames|;
    var f := s.frames[n - 2];
    assert FrameFits(p, a, u, f);
    CallOk(p[f.callee].fn, a[f.callee], u, f.m, answer);
    var below := Sys(s.frames[..n - 1], s.fuel);
    assert below.frames[..n - 2] == s.frames[..n - 2];
    assert SysFits(p, a, u, below);
    var i := CurrentCall(p[f.callee], f.m).value;
    ReplaceTop(p, a, u, below, f.(m := SetReg(f.m, i.dst, [answer])), s.fuel);
  }

  // ---------------------------------------------------------------- compiled programs

  /** An accepted AST whose labels are elements of blocks, with only blocks and labels around
      them: all its nodes but some blocks and labels have no label below them. */
  ghost predicate TameSource(src: Source) {
    Compiles(src) && exists plain: set<Ptr> :: Tame(src.g, plain) && (src.t in plain || BodyTame(src.g, plain, src.t))
  }

  ghost predicate TameCode(c: Code) {
    exists src: Source :: TameSource(src) && c == Compile(src)
  }

  ghost predicate TameProgram(p: Program) {
    forall k | k in p :: TameCode(p[k])
  }

  /** Accepted code can be noted so that every register is defined before it is used. */
  lemma CompiledComplete(src: Source) returns (a: Notes)
    requires TameSource(src)
    ensures Complete(Compile(src).fn, a)
  {
    hide Known, Gen, MoreNotes, MoreCode, ScopeKnown, BlockFits, Tame, Tamed, DefsEnd, OperandIs;
    var plain: set<Ptr> :| Tame(src.g, plain) && (src.t in plain || BodyTame(src.g, plain, src.t));
    var s, a0 := Entry(), Notes(map[], map[0 := Note({}, None, None)]);
    EntryKnown(s, a0);
    var r := Gen(src.g, {}, s, src.t, false);
    a := GenTame(src.g, plain, {}, s, a0, {}, src.t, false);
    TamedKnown(s, a0, r, a, {}, false);
    MoreNotesAt(a0, a, 0);
    var e := SetTerm(r.st, Ret(r.res.info.ir));
    assert TermFits(r.st.fn, a, r.st.cur, Ret(r.res.info.ir)) by { ReturnFits(s, a0, r, a); }
    EndKnown(r.st, a, Ret(r.res.info.ir));
  }

  lemma EntryKnown(s: St, a: Notes)
    requires s == Entry() && a == Notes(map[], map[0 := Note({}, None, None)])
    ensures Valid(s) && CurOk(s) && s.cur in a.blocks && Known(s, a, {}) && ScopeKnown(s, a) && AllPlaced(s.objects)
  {
    EmptyFits(s.fn, a, 0);
  }

  lemma ReturnFits(s: St, a0: Notes, o: Out, a: Notes)
    requires Tamed(s, a0, o, a, {}, false)
    ensures o.st.cur in a.blocks && o.st.cur < |o.st.fn.blocks|
    ensures TermFits(o.st.fn, a, o.st.cur, Ret(o.res.info.ir))
  {
    hide CodeFits, MoreNotes, MoreCode, ScopeKnown, Dsts;
  }

  lemma EndKnown(s: St, a: Notes, t: Term)
    requires Known(s, a, {}) && TermFits(s.fn, a, s.cur, t)
    ensures CodeFits(SetTerm(s, t).fn, a)
    ensures forall b | b in a.blocks && b < |SetTerm(s, t).fn.blocks| :: SetTerm(s, t).fn.blocks[b].term.Some?
  {
    hide BlockFits, TermFits, Dsts;
    var e := SetTerm(s, t);
    MoreNotesRefl(a);
    forall b | b in a.blocks ensures b < |e.fn.blocks| && BlockFits(e.fn, a, b) {
      if b != s.cur { BlockMore(s.fn, e.fn, a, a, b); } else { EndFits(s.fn, e.fn, a, b, t); }
    }
  }

  lemma SourceOf(c: Code) returns (src: Source)
    requires TameCode(c)
    ensures TameSource(src) && c == Compile(src)
  {
    src :| TameSource(src) && c == Compile(src);
  }

  lemma {:induction false} ProgramNotes(p: Program, done: set<Word>) returns (a: AllNotes)
    requires TameProgram(p) && done <= p.Keys
    ensures forall k | k in done :: k in a && Complete(p[k].fn, a[k])
    decreases done
  {
    hide Complete, TameSource, Compile;
    a := map[];
    if done != {} {
      var k :| k in done;
      var rest := ProgramNotes(p, done - {k});
      assert TameCode(p[k]);
      hide TameCode;
      var src := SourceOf(p[k]);
      var notes := CompiledComplete(src);
      a := rest[k := notes];
    }
  }

  /** A run that can go no further. */
  predicate Ended(p: Program, u: Word, s: Sys) {
    Returns(p, s) || CallsNothing(p, u, s)
  }

  /** From there, there is no step. */
  lemma EndedStops(p: Program, u: Word, s: Sys, answer: Word)
    requires Ended(p, u, s)
    ensures SysStep(p, u, s, answer).None?
  {
    hide Step, Val;
  }

  lemma {:induction false} RunFits(p: Program, a: AllNotes, u: Word, s: Sys, answers: seq<Word>)
    requires ProgramComplete(p, a) && SysFits(p, a, u, s) && SysRun(p, u, s, answers).Some?
    ensures SysFits(p, a, u, SysRun(p, u, s, answers).value)
    decreases |answers|
  {
    hide SysStep, SysFits, ProgramComplete, Returns, CallsNothing;
    if answers != [] {
      if Ended(p, u, s) { EndedStops(p, u, s, answers[0]); }
      SysStepOk(p, a, u, s, answers[0]);
      RunFits(p, a, u, SysStep(p, u, s, answers[0]).value, answers[1..]);
    }
  }

  lemma StartFits(p: Program, a: AllNotes, u: Word, start: Word, fuel: nat)
    requires ProgramComplete(p, a) && start in p
    ensures SysFits(p, a, u, Sys([Fresh(start)], fuel))
  {
    hide ProgramComplete, FrameFits;
    FreshFits(p, a, u, start);
  }

  /** Every run of a program of accepted functions has a next step, whatever its calls answer,
      if and only if neither the first function returns nor a word that is no function is
      called. */
  lemma StepsIffNotEnded(p: Program, start: Word, fuel: nat, u: Word, answers: seq<Word>, answer: Word)
    requires TameProgram(p) && start in p && SysRun(p, u, Sys([Fresh(start)], fuel), answers).Some?
    ensures var s := SysRun(p, u, Sys([Fresh(start)], fuel), answers).value;
      SysStep(p, u, s, answer).Some? <==> !Ended(p, u, s)
  {
    hide SysStep, SysFits, SysRun, Returns, CallsNothing, Complete, TameProgram;
    var a := ProgramNotes(p, p.Keys);
    StartFits(p, a, u, start, fuel);
    RunFits(p, a, u, Sys([Fresh(start)], fuel), answers);
    var s := SysRun(p, u, Sys([Fresh(start)], fuel), answers).value;
    if Ended(p, u, s) { EndedStops(p, u, s, answer); } else { SysStepOk(p, a, u, s, answer); }
  }

  lemma {:induction false} RunMore(p: Program, u: Word, s: Sys, answers: seq<Word>, answer: Word)
    requires SysRun(p, u, s, answers).Some?
    ensures SysRun(p, u, s, answers + [answer]) == SysStep(p, u, SysRun(p, u, s, answers).value, answer)
    decreases |answers|
  {
    hide SysStep;
    if answers == [] {
      assert SysRun(p, u, s, [answer]) == SysStep(p, u, s, answer);
    } else {
      assert (answers + [answer])[1..] == answers[1..] + [answer];
      RunMore(p, u, SysStep(p, u, s, answers[0]).value, answers[1..], answer);
    }
  }

  /** The run with the first n answers ends. */
  ghost predicate EndsAt(p: Program, u: Word, s: Sys, answers: seq<Word>, n: nat) {
    n <= |answers| && SysRun(p, u, s, answers[..n]).Some? && Ended(p, u, SysRun(p, u, s, answers[..n]).value)
  }

  ghost predicate RunEnds(p: Program, u: Word, start: Word, fuel: nat, answers: seq<Word>) {
    exists n: nat :: EndsAt(p, u, Sys([Fresh(start)], fuel), answers, n)
  }

  /** A run that cannot use up its answers ends. */
  lemma OneRunEnds(p: Program, u: Word, start: Word, fuel: nat, answers: seq<Word>)
    requires TameProgram(p) && start in p && SysRun(p, u, Sys([Fresh(start)], fuel), answers).None?
    ensures RunEnds(p, u, start, fuel, answers)
  {
    hide SysStep, SysRun, Ended, TameProgram;
    var s, n := Sys([Fresh(start)], fuel), 0;
    NothingRuns(p, u, s);
    while !Ended(p, u, SysRun(p, u, s, answers[..n]).value)
      invariant n <= |answers| && SysRun(p, u, s, answers[..n]).Some?
      decreases |answers| - n
    {
      assert answers[..|answers|] == answers;
      StepsIffNotEnded(p, start, fuel, u, answers[..n], answers[n]);
      RunMore(p, u, s, answers[..n], answers[n]);
      assert answers[..n + 1] == answers[..n] + [answers[n]];
      n := n + 1;
    }
    assert EndsAt(p, u, s, answers, n);
  }

  /** Every run comes to such an end, within a bound that is linear in the fuel. */
  lemma EveryRunEnds(p: Program) returns (whole: nat)
    requires TameProgram(p)
    ensures forall start: Word, fuel: nat, u: Word, answers: seq<Word> | start in p && |answers| > (fuel + 1) * whole ::
      RunEnds(p, u, start, fuel, answers)
  {
    hide SysRun, RunEnds, TameProgram;
    TameIsCompiled(p);
    whole := FuelBoundsEveryRun(p);
    forall start: Word, fuel: nat, u: Word, answers: seq<Word> | start in p && |answers| > (fuel + 1) * whole
      ensures RunEnds(p, u, start, fuel, answers)
    {
      assert SysRun(p, u, Sys([Fresh(start)], fuel), answers).None?;
      OneRunEnds(p, u, start, fuel, answers);
    }
  }

  lemma NothingRuns(p: Program, u: Word, s: Sys)
    ensures SysRun(p, u, s, []) == Some(s)
  {
  }

  lemma TameIsCompiled(p: Program)
    requires TameProgram(p)
    ensures Fuel.Compiled(p)
  {
    hide Compile;
    forall k | k in p ensures CompiledCode(p[k]) {
      assert TameCode(p[k]);
      var src := SourceOf(p[k]);
    }
  }
}
