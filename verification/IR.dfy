/**
 The target of the compiler: blocks of straight-line instructions over single-assignment
 registers that hold one or more words, stack slots, and the branch terminators.
 A register holds what LLVM would call an i64 (one word) or an [n x i64].
 */
module IR {
  import opened Options
  import opened Words

  datatype Operand =
    | Lit(words: seq<Word>)
    | Undef(size: nat)
    | Reg(r: nat)

  datatype BinOp = Add | Sub | Mul | UDiv | URem | LShr | AShr | Shl | ULT | SLT | NE

  datatype Instr =
    | Compute(dst: nat, op: BinOp, a: Operand, b: Operand)
    | Extract(dst: nat, agg: Operand, index: nat)
    | Insert(dst: nat, agg: Operand, elem: Operand, index: nat)
    | Load(dst: nat, slot: nat, offset: nat)
    | Store(slot: nat, offset: nat, val: Operand)
    | Phi(dst: nat, val0: Operand, from0: nat, val1: Operand, from1: nat)
    | Call(dst: nat, callee: Operand)

  /** SpendFuel is the sequence emitted for a backward jump: load the fuel, and if it is
      non-zero, decrement it, store it back and jump to `back`; otherwise go to `fail`. */
  datatype Term =
    | Br(target: nat)
    | CondBr(cond: Operand, ifTrue: nat, ifFalse: nat)
    | SpendFuel(back: nat, fail: nat)
    | Ret(result: Operand)

  datatype Block = Block(body: seq<Instr>, term: Option<Term>)

  datatype Fn = Fn(blocks: seq<Block>, slots: seq<nat>)

  /** A running activation. `prev` is the block control came from, which is what a phi reads. */
  datatype Machine = Machine(
    block: nat, pc: nat, prev: nat,
    regs: map<nat, seq<Word>>, mem: map<(nat, nat), Word>,
    fuel: nat)

  /** The value of an operand; `undef` is what an undefined word happens to be. */
  function Val(regs: map<nat, seq<Word>>, undef: Word, o: Operand): Option<seq<Word>> {
    match o
    case Lit(ws) => Some(ws)
    case Undef(n) => Some(seq(n, _ => undef))
    case Reg(r) => if r in regs then Some(regs[r]) else None
  }

  /** One operator. Division by zero and shifts of 64 or more have no defined result. */
  function Apply(op: BinOp, x: Word, y: Word): Option<Word> {
    match op
    case Add => Some(Wrap(x + y))
    case Sub => Some(Wrap(x - y))
    case Mul => Some(Wrap(x * y))
    case UDiv => if y == 0 then None else Some(Wrap(x / y))
    case URem => if y == 0 then None else Some(Wrap(x % y))
    case LShr => if y >= 64 then None else Some(Wrap(x / Pow2(y)))
    case AShr => if y >= 64 then None else Some(Wrap(Signed(x) / Pow2(y)))
    case Shl => if y >= 64 then None else Some(Wrap(x * Pow2(y)))
    case ULT => Some(FromBool(x < y))
    case SLT => Some(FromBool(Signed(x) < Signed(y)))
    case NE => Some(FromBool(x != y))
  }

  function Word1(v: Option<seq<Word>>): Option<Word> {
    if v.Some? && |v.value| == 1 then Some(v.value[0]) else None
  }

  function SetReg(m: Machine, dst: nat, ws: seq<Word>): Machine {
    m.(pc := m.pc + 1, regs := m.regs[dst := ws])
  }

  /** Executes one instruction; None when it has no defined behaviour. Calls are given a
      meaning only by the machine of whole programs in Fuel. */
  function Exec(p: Fn, undef: Word, m: Machine, i: Instr): Option<Machine> {
    match i
    case Compute(dst, op, a, b) =>
      var x, y := Word1(Val(m.regs, undef, a)), Word1(Val(m.regs, undef, b));
      if x.None? || y.None? then None else
      var z := Apply(op, x.value, y.value);
      if z.None? then None else Some(SetReg(m, dst, [z.value]))
    case Extract(dst, agg, index) =>
      var v := Val(m.regs, undef, agg);
      if v.None? || index >= |v.value| then None else Some(SetReg(m, dst, [v.value[index]]))
    case Insert(dst, agg, elem, index) =>
      var v, x := Val(m.regs, undef, agg), Word1(Val(m.regs, undef, elem));
      if v.None? || x.None? || index >= |v.value| then None
      else Some(SetReg(m, dst, v.value[index := x.value]))
    case Load(dst, slot, offset) =>
      if slot >= |p.slots| || offset >= p.slots[slot] then None
      else Some(SetReg(m, dst, [if (slot, offset) in m.mem then m.mem[(slot, offset)] else undef]))
    case Store(slot, offset, val) =>
      var x := Word1(Val(m.regs, undef, val));
      if slot >= |p.slots| || offset >= p.slots[slot] || x.None? then None
      else Some(m.(pc := m.pc + 1, mem := m.mem[(slot, offset) := x.value]))
    case Phi(dst, val0, from0, val1, from1) =>
      var v := if m.prev == from0 then Val(m.regs, undef, val0)
               else if m.prev == from1 then Val(m.regs, undef, val1) else None;
      if v.None? then None else Some(SetReg(m, dst, v.value))
    case Call(_, _) => None
  }

  function Jump(m: Machine, target: nat): Machine {
    m.(block := target, pc := 0, prev := m.block)
  }

  /** One machine step; None at a return, at the end of unfinished code, or when stuck. */
  function Step(p: Fn, undef: Word, m: Machine): Option<Machine> {
    if m.block >= |p.blocks| then None else
    var b := p.blocks[m.block];
    if m.pc < |b.body| then Exec(p, undef, m, b.body[m.pc])
    else if m.pc > |b.body| || b.term.None? then None
    else match b.term.value
      case Br(target) => Some(Jump(m, target))
      case CondBr(cond, ifTrue, ifFalse) =>
        var c := Word1(Val(m.regs, undef, cond));
        if c.None? then None else Some(Jump(m, if c.value != 0 then ifTrue else ifFalse))
      case SpendFuel(back, fail) =>
        Some(if m.fuel != 0 then Jump(m, back).(fuel := m.fuel - 1) else Jump(m, fail))
      case Ret(_) => None
  }

  function Steps(p: Fn, undef: Word, m: Machine, n: nat): Option<Machine>
    decreases n
  {
    if n == 0 then Some(m) else
    var next := Step(p, undef, m);
    if next.None? then None else Steps(p, undef, next.value, n - 1)
  }

  ghost predicate Runs(p: Fn, undef: Word, m: Machine, m': Machine) {
    exists n: nat :: Steps(p, undef, m, n) == Some(m')
  }

  /** q is p with more code: appended instructions, new blocks, new slots. */
  ghost predicate Extends(p: Fn, q: Fn) {
    && |p.blocks| <= |q.blocks|
    && p.slots <= q.slots
    && (forall i | 0 <= i < |p.blocks| ::
          && p.blocks[i].body <= q.blocks[i].body
          && (p.blocks[i].term.Some? ==> q.blocks[i] == p.blocks[i]))
  }

  lemma StepExtends(p: Fn, q: Fn, undef: Word, m: Machine)
    requires Extends(p, q) && Step(p, undef, m).Some?
    ensures Step(q, undef, m) == Step(p, undef, m)
  {
    var pb, qb := p.blocks[m.block], q.blocks[m.block];
    if m.pc < |pb.body| {
      assert pb.body[m.pc] == qb.body[m.pc];
    }
  }

  /** Code that has been emitted keeps running the same way whatever is emitted later. */
  lemma {:induction false} StepsExtend(p: Fn, q: Fn, undef: Word, m: Machine, n: nat)
    requires Extends(p, q) && Steps(p, undef, m, n).Some?
    ensures Steps(q, undef, m, n) == Steps(p, undef, m, n)
    decreases n
  {
    if n > 0 {
      StepExtends(p, q, undef, m);
      StepsExtend(p, q, undef, Step(p, undef, m).value, n - 1);
    }
  }

  lemma {:induction false} StepsCompose(p: Fn, undef: Word, m: Machine, n: nat, k: nat)
    requires Steps(p, undef, m, n).Some?
    ensures Steps(p, undef, m, n + k) == Steps(p, undef, Steps(p, undef, m, n).value, k)
    decreases n
  {
    hide Step;
    if n > 0 {
      StepsCompose(p, undef, Step(p, undef, m).value, n - 1, k);
    }
  }

  lemma RunsExtend(p: Fn, q: Fn, undef: Word, m: Machine, m': Machine)
    requires Extends(p, q) && Runs(p, undef, m, m')
    ensures Runs(q, undef, m, m')
  {
    var n: nat :| Steps(p, undef, m, n) == Some(m');
    StepsExtend(p, q, undef, m, n);
  }

  lemma RunsCompose(p: Fn, undef: Word, m: Machine, m1: Machine, m2: Machine)
    requires Runs(p, undef, m, m1) && Runs(p, undef, m1, m2)
    ensures Runs(p, undef, m, m2)
  {
    var n: nat :| Steps(p, undef, m, n) == Some(m1);
    var k: nat :| Steps(p, undef, m1, k) == Some(m2);
    StepsCompose(p, undef, m, n, k);
  }

  lemma RunsZero(p: Fn, undef: Word, m: Machine)
    ensures Runs(p, undef, m, m)
  {
    assert Steps(p, undef, m, 0) == Some(m);
  }

  lemma RunsStep(p: Fn, undef: Word, m: Machine, m': Machine)
    requires Step(p, undef, m) == Some(m')
    ensures Runs(p, undef, m, m')
  {
    assert Steps(p, undef, m', 0) == Some(m');
    assert Steps(p, undef, m, 1) == Some(m');
  }
}
