/**
 Every register is defined before it is used: notes on the emitted blocks say which registers
 are defined where a block starts, and how many words a register holds. Every step of the
 compiler keeps code and notes in agreement.
 */
module Defined {
  import opened Options
  import opened Words
  import opened IR
  import opened Ast
  import opened CodeGen
  import opened Scopes

  /** The comparison of an operand with a limit that led to a block. */
  datatype Guard = Guard(cmp: BinOp, y: Operand, limit: Word)

  /** What is known where a block starts: the registers that are defined, the blocks that
      control may come from if a phi depends on it, and a comparison that holds. */
  datatype Note = Note(defs: set<nat>, from: Option<set<nat>>, guard: Option<Guard>)

  /** The number of words of each register, and the notes on the blocks. */
  datatype Notes = Notes(sizes: map<nat, nat>, blocks: map<nat, Note>)

  function DstOf(i: Instr): set<nat> {
    match i
    case Store(_, _, _) => {}
    case _ => {i.dst}
  }

  /** The registers that instructions define. */
  function Dsts(body: seq<Instr>): set<nat> {
    if body == [] then {} else Dsts(body[..|body| - 1]) + DstOf(body[|body| - 1])
  }

  lemma DstsMore(body: seq<Instr>, i: Instr)
    ensures Dsts(body + [i]) == Dsts(body) + DstOf(i)
  {
    assert (body + [i])[..|body|] == body;
  }

  lemma {:induction false} DstsPrefix(p: seq<Instr>, q: seq<Instr>)
    requires p <= q
    ensures Dsts(p) <= Dsts(q)
    decreases |q|
  {
    if |p| < |q| {
      DstsPrefix(p, q[..|q| - 1]);
    } else {
      assert p == q;
    }
  }

  /** The registers that are defined before instruction k of a block, and at its end. */
  ghost function DefsAt(fn: Fn, a: Notes, b: nat, k: nat): set<nat>
    requires b in a.blocks && b < |fn.blocks| && k <= |fn.blocks[b].body|
  {
    a.blocks[b].defs + Dsts(fn.blocks[b].body[..k])
  }

  ghost function DefsEnd(fn: Fn, a: Notes, b: nat): set<nat>
    requires b in a.blocks && b < |fn.blocks|
  {
    a.blocks[b].defs + Dsts(fn.blocks[b].body)
  }

  // ---------------------------------------------------------------- code that agrees with its notes

  /** The operand is defined, and has so many words. */
  ghost predicate OperandIs(a: Notes, d: set<nat>, o: Operand, size: nat) {
    match o
    case Lit(ws) => |ws| == size
    case Undef(n) => n == size
    case Reg(r) => r in d && r in a.sizes && a.sizes[r] == size
  }

  function SizeOf(a: Notes, o: Operand): nat {
    match o
    case Lit(ws) => |ws|
    case Undef(n) => n
    case Reg(r) => if r in a.sizes then a.sizes[r] else 0
  }

  ghost predicate Holds(a: Notes, d: set<nat>, o: Operand) {
    OperandIs(a, d, o, SizeOf(a, o))
  }

  ghost predicate Sized(a: Notes, r: nat, n: nat) {
    r in a.sizes && a.sizes[r] == n
  }

  /** Operators that have no result for some operands, and the comparison that rules these out. */
  predicate Partial(op: BinOp) {
    op == IR.UDiv || op == IR.URem || op == LShr || op == AShr || op == IR.Shl
  }

  predicate Protects(op: BinOp, g: Guard) {
    if op == IR.UDiv || op == IR.URem then g.cmp == NE && g.limit == 0 else g.cmp == ULT && g.limit == 64
  }

  /** Instruction k of a block, with the registers that are defined before it. */
  ghost predicate InstrFits(fn: Fn, a: Notes, note: Note, k: nat, d: set<nat>, i: Instr) {
    match i
    case Compute(dst, op, x, y) =>
      && OperandIs(a, d, x, 1) && OperandIs(a, d, y, 1) && Sized(a, dst, 1)
      && (Partial(op) ==> k == 0 && note.guard.Some? && note.guard.value.y == y && Protects(op, note.guard.value))
    case Extract(dst, agg, index) => Holds(a, d, agg) && index < SizeOf(a, agg) && Sized(a, dst, 1)
    case Insert(dst, agg, elem, index) =>
      Holds(a, d, agg) && OperandIs(a, d, elem, 1) && index < SizeOf(a, agg) && Sized(a, dst, SizeOf(a, agg))
    case Load(dst, slot, offset) => slot < |fn.slots| && offset < fn.slots[slot] && Sized(a, dst, 1)
    case Store(slot, offset, val) => slot < |fn.slots| && offset < fn.slots[slot] && OperandIs(a, d, val, 1)
    case Phi(dst, x, b0, y, b1) =>
      && note.from.Some? && (forall b | b in note.from.value :: (b == b0 || b == b1))
      && (forall b | b in note.from.value ::
            b in a.blocks && b < |fn.blocks| && PhiHolds(fn, a, b, if b == b0 then x else y, dst))
    case Call(dst, callee) => OperandIs(a, d, callee, 1) && Sized(a, dst, 1)
  }

  /** The operand that a phi takes when control comes from b. */
  ghost predicate PhiHolds(fn: Fn, a: Notes, b: nat, o: Operand, dst: nat)
    requires b in a.blocks && b < |fn.blocks|
  {
    Holds(a, DefsEnd(fn, a, b), o) && Sized(a, dst, SizeOf(a, o))
  }

  /** Control may go from the end of b to c. */
  ghost predicate Edge(fn: Fn, a: Notes, b: nat, c: nat)
    requires b in a.blocks && b < |fn.blocks|
  {
    && c in a.blocks && a.blocks[c].defs <= DefsEnd(fn, a, b)
    && (a.blocks[c].from.Some? ==> b in a.blocks[c].from.value)
  }

  ghost predicate PlainEdge(fn: Fn, a: Notes, b: nat, c: nat)
    requires b in a.blocks && b < |fn.blocks|
  {
    Edge(fn, a, b, c) && a.blocks[c].guard.None?
  }

  /** The last instruction of a block compares as the guard says. */
  ghost predicate Compares(body: seq<Instr>, cond: Operand, g: Guard) {
    && |body| > 0 && cond.Reg? && g.y != cond
    && body[|body| - 1] == Compute(cond.r, g.cmp, g.y, Lit([g.limit]))
  }

  ghost predicate TermFits(fn: Fn, a: Notes, b: nat, t: Term)
    requires b in a.blocks && b < |fn.blocks|
  {
    match t
    case Br(c) => PlainEdge(fn, a, b, c)
    case CondBr(cond, c0, c1) =>
      && OperandIs(a, DefsEnd(fn, a, b), cond, 1)
      && Edge(fn, a, b, c0) && PlainEdge(fn, a, b, c1)
      && (a.blocks[c0].guard.Some? ==> Compares(fn.blocks[b].body, cond, a.blocks[c0].guard.value))
    case SpendFuel(back, fail) => PlainEdge(fn, a, b, back) && PlainEdge(fn, a, b, fail)
    case Ret(result) => Holds(a, DefsEnd(fn, a, b), result)
  }

  ghost predicate BlockFits(fn: Fn, a: Notes, b: nat)
    requires b in a.blocks && b < |fn.blocks|
  {
    var block := fn.blocks[b];
    && (forall k | 0 <= k < |block.body| :: InstrFits(fn, a, a.blocks[b], k, DefsAt(fn, a, b, k), block.body[k]))
    && (block.term.Some? ==> TermFits(fn, a, b, block.term.value))
  }

  ghost predicate CodeFits(fn: Fn, a: Notes) {
    forall b | b in a.blocks :: b < |fn.blocks| && BlockFits(fn, a, b)
  }

  // ---------------------------------------------------------------- growing

  ghost predicate MoreNotes(a: Notes, a': Notes) {
    && (forall r | r in a.sizes :: r in a'.sizes && a'.sizes[r] == a.sizes[r])
    && (forall b | b in a.blocks :: b in a'.blocks && a'.blocks[b] == a.blocks[b])
  }

  ghost predicate MoreCode(fn: Fn, fn': Fn) {
    && |fn.blocks| <= |fn'.blocks| && fn.slots <= fn'.slots
    && forall b | 0 <= b < |fn.blocks| :: fn.blocks[b].body <= fn'.blocks[b].body
  }

  lemma MoreNotesTrans(a: Notes, a1: Notes, a2: Notes)
    requires MoreNotes(a, a1) && MoreNotes(a1, a2)
    ensures MoreNotes(a, a2)
  {
  }

  lemma OperandMore(a: Notes, a': Notes, d: set<nat>, d': set<nat>, o: Operand, size: nat)
    requires OperandIs(a, d, o, size) && MoreNotes(a, a') && d <= d'
    ensures OperandIs(a', d', o, size) && SizeOf(a', o) == SizeOf(a, o) == size
  {
  }

  lemma DefsMore(fn: Fn, fn': Fn, a: Notes, a': Notes, b: nat)
    requires MoreNotes(a, a') && MoreCode(fn, fn') && b in a.blocks && b < |fn.blocks|
    ensures DefsEnd(fn, a, b) <= DefsEnd(fn', a', b)
  {
    DstsPrefix(fn.blocks[b].body, fn'.blocks[b].body);
    hide Dsts;
  }

  lemma InstrMore(fn: Fn, fn': Fn, a: Notes, a': Notes, note: Note, k: nat, d: set<nat>, i: Instr)
    requires InstrFits(fn, a, note, k, d, i) && MoreNotes(a, a') && MoreCode(fn, fn')
    ensures InstrFits(fn', a', note, k, d, i)
  {
    hide Dsts, DefsEnd;
    match i
    case Compute(dst, op, x, y) => OperandMore(a, a', d, d, x, 1); OperandMore(a, a', d, d, y, 1);
    case Extract(dst, agg, index) => OperandMore(a, a', d, d, agg, SizeOf(a, agg));
    case Insert(dst, agg, elem, index) =>
      OperandMore(a, a', d, d, agg, SizeOf(a, agg));
      OperandMore(a, a', d, d, elem, 1);
    case Load(_, _, _) =>
    case Store(_, _, val) => OperandMore(a, a', d, d, val, 1);
    case Phi(dst, x, b0, y, b1) =>
      forall b | b in note.from.value
        ensures b in a'.blocks && b < |fn'.blocks| && PhiHolds(fn', a', b, if b == b0 then x else y, dst)
      {
        var o := if b == b0 then x else y;
        DefsMore(fn, fn', a, a', b);
        OperandMore(a, a', DefsEnd(fn, a, b), DefsEnd(fn', a', b), o, SizeOf(a, o));
      }
    case Call(_, callee) => OperandMore(a, a', d, d, callee, 1);
  }

  lemma TermMore(fn: Fn, fn': Fn, a: Notes, a': Notes, b: nat, t: Term)
    requires b in a.blocks && b < |fn.blocks| && TermFits(fn, a, b, t) && MoreNotes(a, a') && MoreCode(fn, fn')
    requires fn'.blocks[b].body == fn.blocks[b].body
    ensures TermFits(fn', a', b, t)
  {
    hide Dsts;
    match t
    case CondBr(cond, _, _) => OperandMore(a, a', DefsEnd(fn, a, b), DefsEnd(fn', a', b), cond, 1);
    case Ret(o) => OperandMore(a, a', DefsEnd(fn, a, b), DefsEnd(fn', a', b), o, SizeOf(a, o));
    case _ =>
  }

  /** A block that was left alone still agrees with its notes. */
  lemma BlockMore(fn: Fn, fn': Fn, a: Notes, a': Notes, b: nat)
    requires b in a.blocks && b < |fn.blocks| && BlockFits(fn, a, b) && MoreNotes(a, a') && MoreCode(fn, fn')
    requires fn'.blocks[b] == fn.blocks[b]
    ensures BlockFits(fn', a', b)
  {
    hide Dsts, InstrFits, TermFits;
    var block := fn.blocks[b];
    forall k | 0 <= k < |block.body|
      ensures InstrFits(fn', a', a'.blocks[b], k, DefsAt(fn', a', b, k), block.body[k])
    {
      InstrMore(fn, fn', a, a', a.blocks[b], k, DefsAt(fn, a, b, k), block.body[k]);
    }
    if block.term.Some? { TermMore(fn, fn', a, a', b, block.term.value); }
  }

  // ---------------------------------------------------------------- steps of the builder

  /** The code so far agrees with its notes; only the current block and the open ones have no
      end yet. */
  ghost predicate Known(s: St, a: Notes, open: set<nat>) {
    && CurOk(s) && s.cur in a.blocks && s.fn.blocks[s.cur].term.None?
    && CodeFits(s.fn, a)
    && (forall r | r in a.sizes :: r < s.regs)
    && (forall b | b in a.blocks && b < |s.fn.blocks| && s.fn.blocks[b].term.None? :: b == s.cur || b in open)
  }

  /** The registers that are defined at the insertion point. */
  ghost function Here(s: St, a: Notes): set<nat>
    requires CurOk(s) && s.cur in a.blocks
  {
    DefsEnd(s.fn, a, s.cur)
  }

  /** From s on, code was emitted and notes were taken. */
  ghost predicate Grew(s: St, a: Notes, s': St, a': Notes, open: set<nat>)
    requires CurOk(s) && s.cur in a.blocks
  {
    Known(s', a', open) && MoreNotes(a, a') && MoreCode(s.fn, s'.fn) && Here(s, a) <= Here(s', a')
  }

  lemma GrewRefl(s: St, a: Notes, open: set<nat>)
    requires Known(s, a, open)
    ensures Grew(s, a, s, a, open)
  {
  }

  lemma MoreCodeTrans(fn: Fn, fn1: Fn, fn2: Fn)
    requires MoreCode(fn, fn1) && MoreCode(fn1, fn2)
    ensures MoreCode(fn, fn2)
  {
    forall b | 0 <= b < |fn.blocks| ensures fn.blocks[b].body <= fn2.blocks[b].body {
      assert fn.blocks[b].body <= fn1.blocks[b].body <= fn2.blocks[b].body;
    }
  }

  lemma GrewTrans(s: St, a: Notes, s1: St, a1: Notes, s2: St, a2: Notes, open: set<nat>)
    requires CurOk(s) && s.cur in a.blocks && CurOk(s1) && s1.cur in a1.blocks
    requires Grew(s, a, s1, a1, open) && Grew(s1, a1, s2, a2, open)
    ensures Grew(s, a, s2, a2, open)
  {
    hide Known, MoreCode, MoreNotes, Here;
    MoreCodeTrans(s.fn, s1.fn, s2.fn);
    MoreNotesTrans(a, a1, a2);
  }

  lemma KnownCur(s: St, a: Notes, open: set<nat>)
    requires Known(s, a, open)
    ensures CurOk(s) && s.cur in a.blocks && s.regs !in a.sizes
  {
  }

  /** One more instruction in the current block. */
  lemma EmitKnown(s: St, a: Notes, open: set<nat>, i: Instr, s': St, a': Notes)
    requires Known(s, a, open) && s' == Emit(s, i).(regs := s'.regs)
    requires MoreNotes(a, a') && a'.blocks == a.blocks && forall r | r in a'.sizes :: r < s'.regs
    requires InstrFits(s.fn, a', a.blocks[s.cur], |s.fn.blocks[s.cur].body|, Here(s, a), i)
    ensures Grew(s, a, s', a', open) && Here(s', a') == Here(s, a) + DstOf(i)
  {
    hide Dsts, InstrFits, TermFits, DstOf;
    var body, fn, fn' := s.fn.blocks[s.cur].body, s.fn, s'.fn;
    DstsMore(body, i);
    assert MoreCode(fn, fn');
    forall b | b in a'.blocks ensures b < |fn'.blocks| && BlockFits(fn', a', b) {
      if b != s.cur { BlockMore(fn, fn', a, a', b); } else { AppendFits(fn, fn', a, a', b, i); }
    }
    hide BlockFits;
  }

  lemma AppendFits(fn: Fn, fn': Fn, a: Notes, a': Notes, b: nat, i: Instr)
    requires b in a.blocks && b < |fn.blocks| && BlockFits(fn, a, b) && MoreNotes(a, a') && MoreCode(fn, fn')
    requires fn'.blocks[b].body == fn.blocks[b].body + [i] && fn'.blocks[b].term.None?
    requires InstrFits(fn, a', a.blocks[b], |fn.blocks[b].body|, DefsEnd(fn, a, b), i)
    ensures BlockFits(fn', a', b)
  {
    hide Dsts, InstrFits, TermFits;
    var body, body' := fn.blocks[b].body, fn'.blocks[b].body;
    forall k | 0 <= k < |body'| ensures InstrFits(fn', a', a'.blocks[b], k, DefsAt(fn', a', b, k), body'[k]) {
      assert body'[..k] == body[..k];
      if k < |body| {
        InstrMore(fn, fn', a, a', a.blocks[b], k, DefsAt(fn, a, b, k), body[k]);
      } else {
        assert body[..k] == body;
        MoreNotesRefl(a');
        InstrMore(fn, fn', a', a', a.blocks[b], k, DefsEnd(fn, a, b), i);
      }
    }
  }

  lemma MoreNotesRefl(a: Notes)
    ensures MoreNotes(a, a)
  {
  }

  function WithReg(a: Notes, r: nat, n: nat): Notes {
    a.(sizes := a.sizes[r := n])
  }

  /** An instruction that defines the next register. */
  lemma EmitReg(s: St, a: Notes, open: set<nat>, i: Instr, n: nat)
    requires Known(s, a, open) && DstOf(i) == {s.regs}
    requires InstrFits(s.fn, WithReg(a, s.regs, n), a.blocks[s.cur], |s.fn.blocks[s.cur].body|, Here(s, a), i)
    ensures var s', a' := Emit(s, i).(regs := s.regs + 1), WithReg(a, s.regs, n);
      Grew(s, a, s', a', open) && OperandIs(a', Here(s', a'), Reg(s.regs), n)
  {
    hide InstrFits, CodeFits, DefsEnd;
    EmitKnown(s, a, open, i, Emit(s, i).(regs := s.regs + 1), WithReg(a, s.regs, n));
  }

  /** The operand was there before, so it is there after the register was noted. */
  lemma OperandWith(s: St, a: Notes, open: set<nat>, d: set<nat>, o: Operand, size: nat, n: nat)
    requires Known(s, a, open) && OperandIs(a, d, o, size)
    ensures OperandIs(WithReg(a, s.regs, n), d, o, size) && SizeOf(WithReg(a, s.regs, n), o) == size
    ensures o != Reg(s.regs)
  {
    hide CodeFits;
  }

  lemma OperandGrew(s: St, a: Notes, s': St, a': Notes, open: set<nat>, o: Operand, size: nat)
    requires CurOk(s) && s.cur in a.blocks && Grew(s, a, s', a', open) && OperandIs(a, Here(s, a), o, size)
    ensures OperandIs(a', Here(s', a'), o, size)
  {
    hide CodeFits, DefsEnd;
  }

  lemma ComputeKnown(s: St, a: Notes, open: set<nat>, op: BinOp, x: Operand, y: Operand) returns (a': Notes)
    requires Known(s, a, open) && OperandIs(a, Here(s, a), x, 1) && OperandIs(a, Here(s, a), y, 1)
    requires var note := a.blocks[s.cur]; Partial(op) ==>
        && s.fn.blocks[s.cur].body == [] && note.guard.Some? && note.guard.value.y == y
        && Protects(op, note.guard.value)
    ensures var (s', z) := EmitCompute(s, op, x, y);
      Grew(s, a, s', a', open) && OperandIs(a', Here(s', a'), z, 1) && a'.blocks == a.blocks
  {
    hide CodeFits, DefsEnd;
    a' := WithReg(a, s.regs, 1);
    OperandWith(s, a, open, Here(s, a), x, 1, 1);
    OperandWith(s, a, open, Here(s, a), y, 1, 1);
    EmitReg(s, a, open, Compute(s.regs, op, x, y), 1);
  }

  lemma WordOfKnown(s: St, a: Notes, open: set<nat>, val: Operand, size: nat, k: nat) returns (a': Notes)
    requires Known(s, a, open) && OperandIs(a, Here(s, a), val, size) && k < size
    ensures var (s', z) := WordOf(s, val, size, k);
      Grew(s, a, s', a', open) && OperandIs(a', Here(s', a'), z, 1) && s'.fn.slots == s.fn.slots
  {
    hide CodeFits, DefsEnd;
    if size > 1 {
      a' := WithReg(a, s.regs, 1);
      OperandWith(s, a, open, Here(s, a), val, size, 1);
      EmitReg(s, a, open, Extract(s.regs, val, k), 1);
    } else {
      a' := a;
    }
  }

  lemma StoreKnown(s: St, a: Notes, open: set<nat>, slot: nat, k: nat, x: Operand)
    requires Known(s, a, open) && OperandIs(a, Here(s, a), x, 1) && slot < |s.fn.slots| && k < s.fn.slots[slot]
    ensures Grew(s, a, Emit(s, IR.Store(slot, k, x)), a, open)
  {
    hide CodeFits, DefsEnd;
    EmitKnown(s, a, open, IR.Store(slot, k, x), Emit(s, IR.Store(slot, k, x)), a);
  }

  lemma {:induction false} WritePlaceKnown(s: St, a: Notes, open: set<nat>, slot: nat, val: Operand, size: nat, k: nat)
      returns (a': Notes)
    requires Known(s, a, open) && OperandIs(a, Here(s, a), val, size)
    requires slot < |s.fn.slots| && s.fn.slots[slot] == size
    ensures Grew(s, a, WritePlace(s, slot, val, size, k), a', open)
    decreases size - k
  {
    hide Known, Here, MoreNotes, MoreCode, OperandIs;
    KnownCur(s, a, open);
    if k >= size {
      a' := a;
      GrewRefl(s, a, open);
    } else {
      var (s1, x) := WordOf(s, val, size, k);
      var a1 := WordOfKnown(s, a, open, val, size, k);
      KnownCur(s1, a1, open);
      var s2 := Emit(s1, IR.Store(slot, k, x));
      StoreKnown(s1, a1, open, slot, k, x);
      GrewTrans(s, a, s1, a1, s2, a1, open);
      OperandGrew(s, a, s2, a1, open, val, size);
      a' := WritePlaceKnown(s2, a1, open, slot, val, size, k + 1);
      GrewTrans(s, a, s2, a1, WritePlace(s, slot, val, size, k), a', open);
    }
  }

  lemma InsertKnown(s: St, a: Notes, open: set<nat>, target: Operand, x: Operand, index: nat, n: nat)
      returns (a': Notes)
    requires Known(s, a, open) && OperandIs(a, Here(s, a), target, n) && OperandIs(a, Here(s, a), x, 1) && index < n
    ensures var s' := Emit(s, Insert(s.regs, target, x, index)).(regs := s.regs + 1);
      Grew(s, a, s', a', open) && OperandIs(a', Here(s', a'), Reg(s.regs), n)
  {
    hide CodeFits, DefsEnd;
    a' := WithReg(a, s.regs, n);
    OperandWith(s, a, open, Here(s, a), target, n, n);
    OperandWith(s, a, open, Here(s, a), x, 1, n);
    EmitReg(s, a, open, Insert(s.regs, target, x, index), n);
  }

  lemma {:induction false} WriteAggregateKnown(s: St, a: Notes, open: set<nat>, target: Operand, offset: nat,
      val: Operand, size: nat, k: nat, n: nat) returns (a': Notes)
    requires Known(s, a, open) && OperandIs(a, Here(s, a), target, n) && OperandIs(a, Here(s, a), val, size)
    requires offset + size <= n
    ensures var (s', z) := WriteAggregate(s, target, offset, val, size, k);
      Grew(s, a, s', a', open) && OperandIs(a', Here(s', a'), z, n)
    decreases size - k
  {
    hide Known, Here, MoreNotes, MoreCode, OperandIs;
    KnownCur(s, a, open);
    if k >= size {
      a' := a;
      GrewRefl(s, a, open);
    } else {
      var (s1, x) := WordOf(s, val, size, k);
      var a1 := WordOfKnown(s, a, open, val, size, k);
      KnownCur(s1, a1, open);
      OperandGrew(s, a, s1, a1, open, target, n);
      var s2 := Emit(s1, Insert(s1.regs, target, x, offset + k)).(regs := s1.regs + 1);
      var a2 := InsertKnown(s1, a1, open, target, x, offset + k, n);
      KnownCur(s2, a2, open);
      GrewTrans(s, a, s1, a1, s2, a2, open);
      OperandGrew(s, a, s2, a2, open, val, size);
      a' := WriteAggregateKnown(s2, a2, open, Reg(s1.regs), offset, val, size, k + 1, n);
      GrewTrans(s, a, s2, a2, WriteAggregate(s, target, offset, val, size, k).0, a', open);
    }
  }

  lemma LoadKnown(s: St, a: Notes, open: set<nat>, slot: nat, k: nat) returns (a': Notes)
    requires Known(s, a, open) && slot < |s.fn.slots| && k < s.fn.slots[slot]
    ensures var s' := Emit(s, Load(s.regs, slot, k)).(regs := s.regs + 1);
      Grew(s, a, s', a', open) && OperandIs(a', Here(s', a'), Reg(s.regs), 1)
  {
    hide CodeFits, DefsEnd;
    a' := WithReg(a, s.regs, 1);
    EmitReg(s, a, open, Load(s.regs, slot, k), 1);
  }

  lemma {:induction false} LoadAggregateKnown(s: St, a: Notes, open: set<nat>, slot: nat, target: Operand, size: nat,
      k: nat) returns (a': Notes)
    requires Known(s, a, open) && OperandIs(a, Here(s, a), target, size)
    requires slot < |s.fn.slots| && s.fn.slots[slot] == size
    ensures var (s', z) := LoadAggregate(s, slot, target, size, k);
      Grew(s, a, s', a', open) && OperandIs(a', Here(s', a'), z, size)
    decreases size - k
  {
    hide Known, Here, MoreNotes, MoreCode, OperandIs;
    KnownCur(s, a, open);
    if k >= size {
      a' := a;
      GrewRefl(s, a, open);
    } else {
      var s1 := Emit(s, Load(s.regs, slot, k)).(regs := s.regs + 1);
      var a1 := LoadKnown(s, a, open, slot, k);
      KnownCur(s1, a1, open);
      OperandGrew(s, a, s1, a1, open, target, size);
      var s2 := Emit(s1, Insert(s1.regs, target, Reg(s.regs), k)).(regs := s1.regs + 1);
      var a2 := InsertKnown(s1, a1, open, target, Reg(s.regs), k, size);
      KnownCur(s2, a2, open);
      GrewTrans(s, a, s1, a1, s2, a2, open);
      a' := LoadAggregateKnown(s2, a2, open, slot, Reg(s1.regs), size, k + 1);
      GrewTrans(s, a, s2, a2, LoadAggregate(s, slot, target, size, k).0, a', open);
    }
  }

  lemma LoadFromKnown(s: St, a: Notes, open: set<nat>, slot: nat, size: nat) returns (a': Notes)
    requires Known(s, a, open) && slot < |s.fn.slots| && s.fn.slots[slot] == size
    ensures var (s', z) := LoadFrom(s, slot, size);
      Grew(s, a, s', a', open) && OperandIs(a', Here(s', a'), z, size)
  {
    hide Known, Here, MoreNotes, MoreCode;
    if size == 1 {
      a' := LoadKnown(s, a, open, slot, 0);
    } else {
      KnownCur(s, a, open);
      a' := LoadAggregateKnown(s, a, open, slot, Undef(size), size, 0);
    }
  }

  // ---------------------------------------------------------------- branches

  function WithBlock(a: Notes, b: nat, note: Note): Notes {
    a.(blocks := a.blocks[b := note])
  }

  lemma NewBlockKnown(s: St, a: Notes, open: set<nat>, note: Note)
    requires Known(s, a, open)
    ensures var n := |s.fn.blocks|; var s', a' := NewBlock(s), WithBlock(a, n, note);
      && Grew(s, a, s', a', open + {n}) && Here(s', a') == Here(s, a)
      && n !in a.blocks && s'.fn.blocks[n] == IR.Block([], None)
  {
    hide Dsts, BlockFits, InstrFits, TermFits;
    var n := |s.fn.blocks|;
    var s', a' := NewBlock(s), WithBlock(a, n, note);
    assert n !in a.blocks;
    forall b | b in a'.blocks ensures b < |s'.fn.blocks| && BlockFits(s'.fn, a', b) {
      if b != n { BlockMore(s.fn, s'.fn, a, a', b); } else { EmptyFits(s'.fn, a', n); }
    }
  }

  lemma EmptyFits(fn: Fn, a: Notes, b: nat)
    requires b in a.blocks && b < |fn.blocks| && fn.blocks[b] == IR.Block([], None)
    ensures BlockFits(fn, a, b)
  {
  }

  /** The current block is ended, and an open one becomes current. */
  lemma MoveKnown(s: St, a: Notes, open: set<nat>, t: Term, next: nat)
    requires Known(s, a, open) && TermFits(s.fn, a, s.cur, t)
    requires next in a.blocks && next < |s.fn.blocks| && next != s.cur && s.fn.blocks[next] == IR.Block([], None)
    ensures var e := Position(SetTerm(s, t), next);
      Known(e, a, open - {next}) && MoreCode(s.fn, e.fn) && Here(e, a) == a.blocks[next].defs
  {
    hide Dsts, InstrFits, TermFits, BlockFits;
    var e := Position(SetTerm(s, t), next);
    MoreNotesRefl(a);
    forall b | b in a.blocks ensures b < |e.fn.blocks| && BlockFits(e.fn, a, b) {
      if b != s.cur { BlockMore(s.fn, e.fn, a, a, b); } else { EndFits(s.fn, e.fn, a, b, t); }
    }
    assert Dsts([]) == {} by { EmptyDsts(); }
  }

  lemma EmptyDsts()
    ensures Dsts([]) == {}
  {
  }

  lemma EndFits(fn: Fn, fn': Fn, a: Notes, b: nat, t: Term)
    requires b in a.blocks && b < |fn.blocks| && BlockFits(fn, a, b) && MoreCode(fn, fn')
    requires fn'.blocks[b] == fn.blocks[b].(term := Some(t)) && TermFits(fn, a, b, t)
    ensures BlockFits(fn', a, b)
  {
    hide Dsts, InstrFits, TermFits;
    MoreNotesRefl(a);
    var body := fn.blocks[b].body;
    forall k | 0 <= k < |body| ensures InstrFits(fn', a, a.blocks[b], k, DefsAt(fn', a, b, k), body[k]) {
      InstrMore(fn, fn', a, a, a.blocks[b], k, DefsAt(fn, a, b, k), body[k]);
    }
    TermMore(fn, fn', a, a, b, t);
  }

  /** The notes on the three blocks of a branch that starts with the registers d defined. */
  function BranchNotes(a: Notes, n: nat, d: set<nat>, from: set<nat>, guard: Option<Guard>): Notes {
    WithBlock(WithBlock(WithBlock(a, n, Note(d, Some(from), None)), n + 1, Note(d, None, guard)),
              n + 2, Note(d, None, None))
  }

  /** A branch that was opened in s. */
  ghost predicate Branched(s: St, a: Notes, h: St, a': Notes, open: set<nat>)
    requires CurOk(s) && s.cur in a.blocks
  {
    var n := |s.fn.blocks|;
    && Grew(s, a, h, a', open + {n, n + 2}) && h.cur == n + 1 && |h.fn.blocks| == n + 3
    && n in a'.blocks && n + 2 in a'.blocks && Here(h, a') == Here(s, a)
    && h.fn.blocks[n] == h.fn.blocks[n + 1] == h.fn.blocks[n + 2] == IR.Block([], None)
  }

  /** The three blocks of a branch are made. */
  ghost predicate ThreeMade(s: St, a: Notes, h: St, a': Notes, open: set<nat>)
    requires CurOk(s) && s.cur in a.blocks
  {
    var n := |s.fn.blocks|;
    && Known(h, a', open + {n, n + 1, n + 2}) && MoreNotes(a, a') && MoreCode(s.fn, h.fn)
    && h.cur == s.cur && |h.fn.blocks| == n + 3 && Here(h, a') == Here(s, a)
    && h.fn.blocks[s.cur] == s.fn.blocks[s.cur]
    && h.fn.blocks[n] == h.fn.blocks[n + 1] == h.fn.blocks[n + 2] == IR.Block([], None)
  }

  lemma ThreeKnown(s: St, a: Notes, open: set<nat>, from: set<nat>, guard: Option<Guard>)
    requires Known(s, a, open)
    ensures var a' := BranchNotes(a, |s.fn.blocks|, Here(s, a), from, guard);
      ThreeMade(s, a, NewBlock(NewBlock(NewBlock(s))), a', open)
  {
    hide Known, MoreCode, MoreNotes, Here;
    KnownCur(s, a, open);
    var n, d := |s.fn.blocks|, Here(s, a);
    var s1, a1 := NewBlock(s), WithBlock(a, n, Note(d, Some(from), None));
    NewBlockKnown(s, a, open, Note(d, Some(from), None));
    KnownCur(s1, a1, open + {n});
    var s2, a2 := NewBlock(s1), WithBlock(a1, n + 1, Note(d, None, guard));
    NewBlockKnown(s1, a1, open + {n}, Note(d, None, guard));
    KnownCur(s2, a2, open + {n} + {n + 1});
    var s3, a3 := NewBlock(s2), WithBlock(a2, n + 2, Note(d, None, None));
    NewBlockKnown(s2, a2, open + {n} + {n + 1}, Note(d, None, None));
    MoreNotesTrans(a, a1, a2);
    MoreNotesTrans(a, a2, a3);
    MoreCodeTrans(s.fn, s1.fn, s2.fn);
    MoreCodeTrans(s.fn, s2.fn, s3.fn);
    assert open + {n} + {n + 1} + {n + 2} == open + {n, n + 1, n + 2};
  }

  lemma BranchOnKnown(s: St, a: Notes, open: set<nat>, cond: Operand, from: set<nat>, guard: Option<Guard>)
    requires Known(s, a, open) && OperandIs(a, Here(s, a), cond, 1)
    requires guard.Some? ==> Compares(s.fn.blocks[s.cur].body, cond, guard.value)
    ensures Branched(s, a, BranchOn(s, cond), BranchNotes(a, |s.fn.blocks|, Here(s, a), from, guard), open)
  {
    hide Known, MoreCode, MoreNotes, Compares, OperandIs, DefsEnd;
    KnownCur(s, a, open);
    var n, d := |s.fn.blocks|, Here(s, a);
    var s3, a3 := NewBlock(NewBlock(NewBlock(s))), BranchNotes(a, n, d, from, guard);
    ThreeKnown(s, a, open, from, guard);
    var t, open3 := CondBr(cond, n + 1, n + 2), open + {n, n + 1, n + 2};
    OperandMore(a, a3, d, d, cond, 1);
    assert TermFits(s3.fn, a3, s3.cur, t);
    hide TermFits;
    MoveKnown(s3, a3, open3, t, n + 1);
    var h := Position(SetTerm(s3, t), n + 1);
    KnownLess(h, a3, open3 - {n + 1}, open + {n, n + 2});
    MoreCodeTrans(s.fn, s3.fn, h.fn);
  }

  lemma KnownLess(s: St, a: Notes, open: set<nat>, open': set<nat>)
    requires Known(s, a, open) && open <= open'
    ensures Known(s, a, open')
  {
    hide CodeFits;
  }

  /** A phi over the two blocks that control may come from. */
  lemma PhiKnown(s: St, a: Notes, open: set<nat>, x0: Operand, b0: nat, x1: Operand, b1: nat, size: nat)
      returns (a': Notes)
    requires Known(s, a, open) && a.blocks[s.cur].from == Some({b0, b1}) && b0 != b1
    requires b0 in a.blocks && b0 < |s.fn.blocks| && OperandIs(a, DefsEnd(s.fn, a, b0), x0, size)
    requires b1 in a.blocks && b1 < |s.fn.blocks| && OperandIs(a, DefsEnd(s.fn, a, b1), x1, size)
    ensures var s' := Emit(s, Phi(s.regs, x0, b0, x1, b1)).(regs := s.regs + 1);
      Grew(s, a, s', a', open) && OperandIs(a', Here(s', a'), Reg(s.regs), size)
  {
    hide CodeFits, Dsts;
    a' := WithReg(a, s.regs, size);
    OperandWith(s, a, open, DefsEnd(s.fn, a, b0), x0, size, size);
    OperandWith(s, a, open, DefsEnd(s.fn, a, b1), x1, size, size);
    assert DefsEnd(s.fn, a', b0) == DefsEnd(s.fn, a, b0) && DefsEnd(s.fn, a', b1) == DefsEnd(s.fn, a, b1);
    hide DefsEnd;
    EmitReg(s, a, open, Phi(s.regs, x0, b0, x1, b1), size);
  }

  /** The current block jumps to a merge block, and an open block becomes current. */
  lemma JumpKnown(s: St, a: Notes, open: set<nat>, merge: nat, next: nat)
    requires Known(s, a, open) && merge in a.blocks && a.blocks[merge].guard.None?
    requires a.blocks[merge].defs <= Here(s, a)
    requires a.blocks[merge].from.Some? ==> s.cur in a.blocks[merge].from.value
    requires next in a.blocks && next < |s.fn.blocks| && next != s.cur && s.fn.blocks[next] == IR.Block([], None)
    ensures var e := Position(SetTerm(s, Br(merge)), next);
      Known(e, a, open - {next}) && MoreCode(s.fn, e.fn) && Here(e, a) == a.blocks[next].defs
  {
    hide CodeFits, Dsts, DefsEnd;
    MoveKnown(s, a, open, Br(merge), next);
  }

  /** The arms of a guarded operator: both end at the merge block. */
  lemma ArmsKnown(s: St, a: Notes, open: set<nat>, op: BinOp, x: Operand, y: Operand, n: nat, d: set<nat>, limit: Guard)
      returns (c: Notes)
    requires Known(s, a, open + {n, n + 2}) && s.cur == n + 1 && n + 2 < |s.fn.blocks|
    requires n in a.blocks && a.blocks[n] == Note(d, Some({n + 1, n + 2}), None)
    requires n + 1 in a.blocks && a.blocks[n + 1] == Note(d, None, Some(limit)) && Here(s, a) == d
    requires n + 2 in a.blocks && a.blocks[n + 2] == Note(d, None, None)
    requires s.fn.blocks[n] == s.fn.blocks[n + 1] == s.fn.blocks[n + 2] == IR.Block([], None)
    requires OperandIs(a, d, x, 1) && OperandIs(a, d, y, 1) && limit.y == y && Protects(op, limit)
    ensures var (s1, z) := EmitCompute(s, op, x, y);
      var e := Position(SetTerm(Position(SetTerm(s1, Br(n)), n + 2), Br(n)), n);
      && Known(e, c, open) && MoreNotes(a, c) && c.blocks == a.blocks && MoreCode(s.fn, s1.fn) && MoreCode(s1.fn, e.fn)
      && Here(e, c) == d && OperandIs(c, Here(s1, c), z, 1)
  {
    hide Known, MoreCode, MoreNotes, OperandIs, Here, DefsEnd, Protects, Partial;
    KnownCur(s, a, open + {n, n + 2});
    c := ComputeKnown(s, a, open + {n, n + 2}, op, x, y);
    var (s1, z) := EmitCompute(s, op, x, y);
    KnownCur(s1, c, open + {n, n + 2});
    JumpKnown(s1, c, open + {n, n + 2}, n, n + 2);
    var s2 := Position(SetTerm(s1, Br(n)), n + 2);
    KnownCur(s2, c, open + {n, n + 2} - {n + 2});
    JumpKnown(s2, c, open + {n, n + 2} - {n + 2}, n, n);
    var e := Position(SetTerm(s2, Br(n)), n);
    MoreCodeTrans(s1.fn, s2.fn, e.fn);
    KnownLess(e, c, open + {n, n + 2} - {n + 2} - {n}, open);
  }

  lemma GuardedKnown(s: St, a: Notes, open: set<nat>, cond: Operand, op: BinOp, x: Operand, y: Operand, other: Operand,
      limit: Guard) returns (a': Notes)
    requires Known(s, a, open) && OperandIs(a, Here(s, a), cond, 1) && OperandIs(a, Here(s, a), x, 1)
    requires OperandIs(a, Here(s, a), y, 1) && OperandIs(a, Here(s, a), other, 1)
    requires limit.y == y && Protects(op, limit) && Compares(s.fn.blocks[s.cur].body, cond, limit)
    ensures var (s', z) := Guarded(s, cond, op, x, y, other);
      Grew(s, a, s', a', open) && OperandIs(a', Here(s', a'), z, 1)
  {
    hide Known, MoreCode, MoreNotes, Compares, OperandIs, Here, DefsEnd, Protects, Partial, BranchOn;
    KnownCur(s, a, open);
    var n, d := |s.fn.blocks|, Here(s, a);
    var h, b := BranchOn(s, cond), BranchNotes(a, n, d, {n + 1, n + 2}, Some(limit));
    BranchOnKnown(s, a, open, cond, {n + 1, n + 2}, Some(limit));
    KnownCur(h, b, open + {n, n + 2});
    OperandMore(a, b, d, d, x, 1);
    OperandMore(a, b, d, d, y, 1);
    OperandMore(a, b, d, d, other, 1);
    var c := ArmsKnown(h, b, open, op, x, y, n, d, limit);
    var (s1, z) := EmitCompute(h, op, x, y);
    var e := Position(SetTerm(Position(SetTerm(s1, Br(n)), n + 2), Br(n)), n);
    KnownCur(e, c, open);
    ArmOperands(s1, e, c, n, d, z, other, b);
    a' := PhiKnown(e, c, open, z, n + 1, other, n + 2, 1);
    MoreNotesTrans(a, b, c);
    MoreCodeTrans(s.fn, h.fn, s1.fn);
    MoreCodeTrans(s.fn, s1.fn, e.fn);
    GrewOn(s, a, e, c, Guarded(s, cond, op, x, y, other).0, a', open);
  }

  /** The operands of the phi after a guarded operator are defined at the ends of the arms. */
  lemma ArmOperands(s1: St, s3: St, c: Notes, n: nat, d: set<nat>, z: Operand, other: Operand, b: Notes)
    requires CurOk(s1) && s1.cur == n + 1 && n + 1 in c.blocks && OperandIs(c, Here(s1, c), z, 1)
    requires MoreCode(s1.fn, s3.fn) && MoreNotes(b, c) && OperandIs(b, d, other, 1)
    requires n + 2 in c.blocks && c.blocks[n + 2].defs == d && n + 2 < |s3.fn.blocks|
    ensures OperandIs(c, DefsEnd(s3.fn, c, n + 1), z, 1) && OperandIs(c, DefsEnd(s3.fn, c, n + 2), other, 1)
  {
    hide Dsts, MoreCode, MoreNotes;
    MoreNotesRefl(c);
    DefsMore(s1.fn, s3.fn, c, c, n + 1) by { assert MoreCode(s1.fn, s3.fn); }
    OperandMore(c, c, DefsEnd(s1.fn, c, n + 1), DefsEnd(s3.fn, c, n + 1), z, 1);
    OperandMore(b, c, d, DefsEnd(s3.fn, c, n + 2), other, 1);
  }

  /** Grew from a state that was reached by other means. */
  lemma GrewOn(s: St, a: Notes, s1: St, a1: Notes, s2: St, a2: Notes, open: set<nat>)
    requires CurOk(s) && s.cur in a.blocks && CurOk(s1) && s1.cur in a1.blocks
    requires MoreNotes(a, a1) && MoreCode(s.fn, s1.fn) && Here(s, a) <= Here(s1, a1) && Grew(s1, a1, s2, a2, open)
    ensures Grew(s, a, s2, a2, open)
  {
    hide Known, MoreCode, MoreNotes, Here;
    MoreCodeTrans(s.fn, s1.fn, s2.fn);
    MoreNotesTrans(a, a1, a2);
  }

  lemma CheckedKnown(s: St, a: Notes, open: set<nat>, cmp: BinOp, limit: Word, op: BinOp, x: Operand, y: Operand,
      other: Operand) returns (a': Notes)
    requires Known(s, a, open) && OperandIs(a, Here(s, a), x, 1) && OperandIs(a, Here(s, a), y, 1)
    requires OperandIs(a, Here(s, a), other, 1) && !Partial(cmp) && Protects(op, Guard(cmp, y, limit))
    ensures var (s', z) := Checked(s, cmp, limit, op, x, y, other);
      Grew(s, a, s', a', open) && OperandIs(a', Here(s', a'), z, 1)
  {
    hide CodeFits, MoreCode, MoreNotes, DefsEnd, Protects, Guarded;
    OperandWith(s, a, open, Here(s, a), y, 1, 1);
    var (s1, c) := EmitCompute(s, cmp, y, Lit([limit]));
    var a1 := ComputeKnown(s, a, open, cmp, y, Lit([limit]));
    hide Known, Here;
    KnownCur(s1, a1, open);
    OperandGrew(s, a, s1, a1, open, x, 1);
    OperandGrew(s, a, s1, a1, open, y, 1);
    OperandGrew(s, a, s1, a1, open, other, 1);
    hide OperandIs;
    assert Compares(s1.fn.blocks[s1.cur].body, c, Guard(cmp, y, limit));
    a' := GuardedKnown(s1, a1, open, c, op, x, y, other, Guard(cmp, y, limit));
    GrewTrans(s, a, s1, a1, Guarded(s1, c, op, x, y, other).0, a', open);
  }

  lemma EmitArithKnown(s: St, a: Notes, open: set<nat>, op: ArithOp, args: seq<Operand>) returns (a': Notes)
    requires Known(s, a, open) && |args| == Arity(op)
    requires forall i | 0 <= i < |args| :: OperandIs(a, Here(s, a), args[i], 1)
    ensures var (s', z) := EmitArith(s, op, args);
      Grew(s, a, s', a', open) && OperandIs(a', Here(s', a'), z, 1)
  {
    hide Known, MoreCode, MoreNotes, Here, Checked, EmitCompute;
    KnownCur(s, a, open);
    match op
    case Zero =>
      a' := a;
      GrewRefl(s, a, open);
    case Increment => a' := ComputeKnown(s, a, open, IR.Add, args[0], Lit([1]));
    case Decrement => a' := ComputeKnown(s, a, open, IR.Sub, args[0], Lit([1]));
    case Add => a' := ComputeKnown(s, a, open, IR.Add, args[0], args[1]);
    case Subtract => a' := ComputeKnown(s, a, open, IR.Sub, args[0], args[1]);
    case Multiply => a' := ComputeKnown(s, a, open, IR.Mul, args[0], args[1]);
    case LessU => a' := ComputeKnown(s, a, open, ULT, args[0], args[1]);
    case LessS => a' := ComputeKnown(s, a, open, SLT, args[0], args[1]);
    case UDiv => a' := CheckedKnown(s, a, open, NE, 0, IR.UDiv, args[0], args[1], Lit([0]));
    case URem => a' := CheckedKnown(s, a, open, NE, 0, IR.URem, args[0], args[1], args[0]);
    case UShr => a' := CheckedKnown(s, a, open, ULT, 64, LShr, args[0], args[1], Lit([0]));
    case SShr => a' := CheckedKnown(s, a, open, ULT, 64, AShr, args[0], args[1], Lit([0]));
    case Shl => a' := CheckedKnown(s, a, open, ULT, 64, IR.Shl, args[0], args[1], Lit([0]));
  }

  lemma ConcatenateKnown(s: St, a: Notes, open: set<nat>, x: Info, y: Info) returns (a': Notes)
    requires Known(s, a, open) && OperandIs(a, Here(s, a), x.ir, |x.ty|) && OperandIs(a, Here(s, a), y.ir, |y.ty|)
    ensures var (s', z) := EmitConcatenate(s, x, y);
      Grew(s, a, s', a', open) && OperandIs(a', Here(s', a'), z, |x.ty| + |y.ty|)
  {
    hide Known, MoreCode, MoreNotes, Here, WriteAggregate;
    KnownCur(s, a, open);
    var total := |x.ty| + |y.ty|;
    if total == 1 {
      a' := a;
      GrewRefl(s, a, open);
    } else {
      var a1 := WriteAggregateKnown(s, a, open, Undef(total), 0, x.ir, |x.ty|, 0, total);
      var (s1, z) := WriteAggregate(s, Undef(total), 0, x.ir, |x.ty|, 0);
      KnownCur(s1, a1, open);
      OperandGrew(s, a, s1, a1, open, y.ir, |y.ty|);
      a' := WriteAggregateKnown(s1, a1, open, z, |x.ty|, y.ir, |y.ty|, 0, total);
      GrewTrans(s, a, s1, a1, WriteAggregate(s1, z, |x.ty|, y.ir, |y.ty|, 0).0, a', open);
    }
  }

  // ---------------------------------------------------------------- scopes

  /** A value without a slot is in an operand that is defined here. */
  ghost predicate Usable(s: St, a: Notes, info: Info)
    requires CurOk(s) && s.cur in a.blocks
  {
    info.place.None? ==> OperandIs(a, Here(s, a), info.ir, |info.ty|)
  }

  /** Nothing has to be defined where a label is. */
  ghost predicate LabelKnown(a: Notes, l: LabelInfo) {
    l.block in a.blocks && a.blocks[l.block] == Note({}, None, None)
  }

  ghost predicate ScopeKnown(s: St, a: Notes)
    requires CurOk(s) && s.cur in a.blocks
  {
    && (forall x | x in s.objects :: Usable(s, a, s.objects[x]))
    && (forall x | x in s.labels :: LabelKnown(a, s.labels[x]))
  }

  /** What compiling an AST leaves: its value is where it is said to be, in an operand if it is
      for its parent. */
  ghost predicate Result(s: St, a: Notes, info: Info, named: bool)
    requires CurOk(s) && s.cur in a.blocks
  {
    Usable(s, a, info) && (!named ==> OperandIs(a, Here(s, a), info.ir, |info.ty|))
  }

  /** The state after an accepted AST without labels. */
  ghost predicate Made(s: St, a: Notes, o: Out, a': Notes, open: set<nat>, named: bool)
    requires CurOk(s) && s.cur in a.blocks
  {
    && o.res.Done? && Grew(s, a, o.st, a', open) && ScopeKnown(o.st, a') && Result(o.st, a', o.res.info, named)
  }

  lemma ScopeGrew(s: St, a: Notes, s': St, a': Notes, open: set<nat>)
    requires CurOk(s) && s.cur in a.blocks && Grew(s, a, s', a', open) && ScopeKnown(s, a)
    requires s'.labels == s.labels && forall x | x in s'.objects :: x in s.objects && s'.objects[x] == s.objects[x]
    ensures ScopeKnown(s', a')
  {
    hide Known, MoreCode, OperandIs, DefsEnd;
    KnownCur(s', a', open);
    forall x | x in s'.objects ensures Usable(s', a', s'.objects[x]) {
      assert Usable(s, a, s.objects[x]);
      if s.objects[x].place.None? { OperandGrew(s, a, s', a', open, s.objects[x].ir, |s.objects[x].ty|); }
    }
  }

  /** One more slot. */
  lemma SlotKnown(s: St, a: Notes, open: set<nat>, size: nat)
    requires Known(s, a, open)
    ensures Grew(s, a, s.(fn := s.fn.(slots := s.fn.slots + [size])), a, open)
  {
    hide BlockFits, Dsts;
    var s' := s.(fn := s.fn.(slots := s.fn.slots + [size]));
    MoreNotesRefl(a);
    forall b | b in a.blocks ensures b < |s'.fn.blocks| && BlockFits(s'.fn, a, b) { BlockMore(s.fn, s'.fn, a, a, b); }
  }

  lemma ClearKnown(s: St, a: Notes, open: set<nat>, n: nat)
    requires Known(s, a, open) && ScopeKnown(s, a)
    ensures Grew(s, a, ClearStack(s, n), a, open) && ScopeKnown(ClearStack(s, n), a)
  {
    hide BlockFits, CodeFits, OperandIs, Dsts;
  }

  lemma FinishKnown(s: St, a: Notes, open: set<nat>, t: Ptr, named: bool, base: nat, ir: Operand, ty: Ty)
      returns (a': Notes)
    requires Known(s, a, open) && ScopeKnown(s, a) && OperandIs(a, Here(s, a), ir, |ty|)
    ensures Made(s, a, Finish(s, t, named, base, ir, ty), a', open, named)
  {
    hide Known, MoreNotes, MoreCode, OperandIs, WritePlace, DefsEnd;
    KnownCur(s, a, open);
    GrewRefl(s, a, open);
    a' := a;
    var s1 := if named then ClearStack(s, base) else s;
    if named { ClearKnown(s, a, open, base); }
    KnownCur(s1, a, open);
    assert OperandIs(a, Here(s1, a), ir, |ty|);
    if ty == [] {
      NullOperand(a, Here(s1, a));
    } else if named {
      var s2 := s1.(fn := s1.fn.(slots := s1.fn.slots + [|ty|]));
      SlotKnown(s1, a, open, |ty|);
      KnownCur(s2, a, open);
      OperandGrew(s1, a, s2, a, open, ir, |ty|);
      var slot := |s1.fn.slots|;
      a' := WritePlaceKnown(s2, a, open, slot, ir, |ty|, 0);
      WritePlaceAppends(s2, slot, ir, |ty|, 0);
      var s3 := WritePlace(s2, slot, ir, |ty|, 0);
      KnownCur(s3, a', open);
      GrewTrans(s, a, s1, a, s2, a, open);
      GrewTrans(s, a, s2, a, s3, a', open);
      GrewTrans(s1, a, s2, a, s3, a', open);
      ScopeGrew(s1, a, s3, a', open);
      LivingKnown(s3, a', open, t, Info(ty, Lit([]), Some(slot)));
      GrewTrans(s, a, s3, a', NewLiving(s3, t, Info(ty, Lit([]), Some(slot))), a', open);
    } else {
      LivingKnown(s, a, open, t, Info(ty, ir, None));
    }
  }

  lemma NullOperand(a: Notes, d: set<nat>)
    ensures OperandIs(a, d, Lit([]), 0)
  {
  }

  lemma LivingKnown(s: St, a: Notes, open: set<nat>, t: Ptr, info: Info)
    requires Known(s, a, open) && ScopeKnown(s, a) && Usable(s, a, info)
    ensures var s' := NewLiving(s, t, info); Grew(s, a, s', a, open) && ScopeKnown(s', a) && Usable(s', a, info)
    ensures Here(NewLiving(s, t, info), a) == Here(s, a)
  {
    hide CodeFits, OperandIs, Dsts;
  }
}
