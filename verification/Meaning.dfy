/**
 Compilation preserves meaning: whenever `generate_IR` accepts an AST of the label-free
 fragment, running the emitted blocks computes what direct evaluation of the AST gives, and
 leaves every living value, cached or in its slot, equal to the evaluator's.
 */
module Meaning {
  import opened Options
  import opened Words
  import opened IR
  import opened Ast
  import opened CodeGen
  import opened Scopes
  import opened Typing
  import opened Evaluator

  // ---------------------------------------------------------------- the relation

  /** Control is at the insertion point. */
  ghost predicate At(s: St, m: Machine) {
    CurOk(s) && m.block == s.cur && m.pc == |s.fn.blocks[s.cur].body|
  }

  ghost predicate RegsBelow(s: St, m: Machine) {
    forall r | r in m.regs :: r < s.regs
  }

  ghost predicate SlotHolds(mem: map<(nat, nat), Word>, slot: nat, ws: seq<Word>) {
    forall i: nat | i < |ws| :: (slot, i) in mem && mem[(slot, i)] == ws[i]
  }

  /** A living AST: its value is in its slot if it is named, and in a register otherwise. */
  ghost predicate Holds(m: Machine, u: Word, info: Info, obj: Obj) {
    && |obj.words| == |info.ty|
    && (obj.named <==> info.place.Some?)
    && (if info.place.Some? then SlotHolds(m.mem, info.place.value, obj.words)
        else Val(m.regs, u, info.ir) == Some(obj.words))
  }

  ghost predicate LivingHold(objects: map<Ptr, Info>, env: Env, m: Machine, u: Word) {
    objects.Keys == env.Keys && forall x | x in objects :: Holds(m, u, objects[x], env[x])
  }

  ghost predicate Rel(s: St, env: Env, m: Machine, u: Word) {
    At(s, m) && RegsBelow(s, m) && LivingHold(s.objects, env, m, u)
  }

  ghost predicate RegsKept(m: Machine, m': Machine) {
    m'.fuel == m.fuel && forall r | r in m.regs :: r in m'.regs && m'.regs[r] == m.regs[r]
  }

  /** The code emitted between s and s' takes the machine from one insertion point to the other. */
  ghost predicate Reaches(s: St, s': St, m: Machine, m': Machine, u: Word) {
    Runs(s'.fn, u, m, m') && At(s', m') && RegsBelow(s', m') && RegsKept(m, m')
  }

  /** What is handed to the parent: the words, unless the value was just given a slot, and
      the place it can be stored back into. */
  ghost predicate ValueRel(s: St, env: Env, m: Machine, u: Word, info: Info, v: Value, usable: bool) {
    && |v.words| == |info.ty|
    && (usable || info.place.None? ==> Val(m.regs, u, info.ir) == Some(v.words))
    && PlaceRel(s, info, v)
    && (v.place.Some? ==> v.place.value in env && env[v.place.value].words == v.words)
  }

  ghost predicate PlaceRel(s: St, info: Info, v: Value) {
    && (v.place.Some? <==> info.place.Some?)
    && (v.place.Some? ==>
          && v.place.value in s.objects && s.objects[v.place.value].place == info.place
          && |info.ty| == |s.objects[v.place.value].ty|)
  }

  lemma ReachesOnward(s: St, s1: St, s2: St, m: Machine, m1: Machine, m2: Machine, u: Word)
    requires Extends(s1.fn, s2.fn)
    requires Reaches(s, s1, m, m1, u) && Reaches(s1, s2, m1, m2, u)
    ensures Reaches(s, s2, m, m2, u)
  {
    hide Extends;
    RunsExtend(s1.fn, s2.fn, u, m, m1);
    RunsCompose(s2.fn, u, m, m1, m2);
  }

  lemma ReachesTrans(s: St, s1: St, s2: St, m: Machine, m1: Machine, m2: Machine, u: Word)
    requires Valid(s1) && Grows(s1, s2)
    requires Reaches(s, s1, m, m1, u) && Reaches(s1, s2, m1, m2, u)
    ensures Reaches(s, s2, m, m2, u)
  {
    hide Valid, Grows, Extends, Reaches;
    GrowsExtends(s1, s2);
    ReachesOnward(s, s1, s2, m, m1, m2, u);
  }

  lemma ReachesRefl(s: St, m: Machine, u: Word)
    requires At(s, m) && RegsBelow(s, m)
    ensures Reaches(s, s, m, m, u)
  {
    RunsZero(s.fn, u, m);
  }

  lemma ValStable(m: Machine, m': Machine, u: Word, o: Operand)
    requires RegsKept(m, m') && Val(m.regs, u, o).Some?
    ensures Val(m'.regs, u, o) == Val(m.regs, u, o)
  {
  }

  /** Living values survive code that keeps the registers and the slots they are in. */
  lemma LivingKept(objects: map<Ptr, Info>, env: Env, m: Machine, m': Machine, u: Word)
    requires LivingHold(objects, env, m, u) && RegsKept(m, m') && m'.mem == m.mem
    ensures LivingHold(objects, env, m', u)
  {
    forall x | x in objects ensures Holds(m', u, objects[x], env[x]) {
      assert Holds(m, u, objects[x], env[x]);
      if objects[x].place.None? { ValStable(m, m', u, objects[x].ir); }
    }
  }

  // ---------------------------------------------------------------- straight-line emission

  /** The machine after one emitted instruction that writes register s.regs. */
  lemma RunEmit(s: St, i: Instr, s': St, m: Machine, m': Machine, u: Word)
    requires At(s, m) && RegsBelow(s, m)
    requires s'.fn == Emit(s, i).fn && s'.cur == s.cur && s.regs <= s'.regs <= s.regs + 1
    requires Exec(s.fn, u, m, i) == Some(m')
    requires m'.regs == m.regs
      || (s'.regs == s.regs + 1 && s.regs in m'.regs && m'.regs == m.regs[s.regs := m'.regs[s.regs]])
    ensures Reaches(s, s', m, m', u)
  {
    assert s'.fn.blocks[s.cur].body[m.pc] == i;
    assert Exec(s'.fn, u, m, i) == Exec(s.fn, u, m, i);
    RunsStep(s'.fn, u, m, m');
  }

  /** As RunEmit, for a chain of emissions: from s, through s1, by one more instruction. */
  lemma RunThenEmit(s: St, s1: St, i: Instr, s2: St, m: Machine, m1: Machine, m2: Machine, u: Word)
    requires Valid(s1) && Reaches(s, s1, m, m1, u)
    requires s2 == Emit(s1, i) || s2 == Emit(s1, i).(regs := s1.regs + 1)
    requires Exec(s1.fn, u, m1, i) == Some(m2)
    requires m2.regs == m1.regs
      || (s2.regs == s1.regs + 1 && s1.regs in m2.regs && m2.regs == m1.regs[s1.regs := m2.regs[s1.regs]])
    ensures Valid(s2) && Reaches(s, s2, m, m2, u)
  {
    hide ScopeOk, ObjectsOk, LabelsOk;
    RunEmit(s1, i, s2, m1, m2, u);
    assert Appends(s1, s2);
    AppendsGrows(s1, s2);
    hide Valid, Runs;
    ReachesTrans(s, s1, s2, m, m1, m2, u);
  }

  lemma RunWordOf(s: St, val: Operand, ws: seq<Word>, k: nat, m: Machine, u: Word) returns (m': Machine)
    requires Valid(s) && At(s, m) && RegsBelow(s, m)
    requires Val(m.regs, u, val) == Some(ws) && k < |ws|
    ensures var r := WordOf(s, val, |ws|, k);
      Valid(r.0) && Reaches(s, r.0, m, m', u) && Val(m'.regs, u, r.1) == Some([ws[k]])
    ensures WordOf(s, val, |ws|, k).0.fn.slots == s.fn.slots
    ensures m'.mem == m.mem
  {
    ReachesRefl(s, m, u);
    if |ws| > 1 {
      m' := SetReg(m, s.regs, [ws[k]]);
      RunThenEmit(s, s, Extract(s.regs, val, k), WordOf(s, val, |ws|, k).0, m, m, m', u);
    } else {
      m' := m;
      assert ws == [ws[k]];
    }
  }

  lemma RunStore(s: St, s1: St, slot: nat, k: nat, x: Operand, w: Word, m: Machine, m1: Machine, u: Word)
      returns (m2: Machine)
    requires Valid(s1) && Reaches(s, s1, m, m1, u)
    requires slot < |s1.fn.slots| && k < s1.fn.slots[slot] && Val(m1.regs, u, x) == Some([w])
    ensures var s2 := Emit(s1, IR.Store(slot, k, x));
      Valid(s2) && Reaches(s, s2, m, m2, u) && s2.fn.slots == s1.fn.slots
    ensures m2.regs == m1.regs && m2.fuel == m1.fuel && m2.mem == m1.mem[(slot, k) := w]
  {
    var s2 := Emit(s1, IR.Store(slot, k, x));
    m2 := m1.(pc := m1.pc + 1, mem := m1.mem[(slot, k) := w]);
    RunThenEmit(s, s1, IR.Store(slot, k, x), s2, m, m1, m2, u);
  }

  lemma RunInsert(s: St, s1: St, target: Operand, ts: seq<Word>, x: Operand, w: Word, k: nat, m: Machine, m1: Machine,
      u: Word) returns (m2: Machine)
    requires Valid(s1) && Reaches(s, s1, m, m1, u)
    requires Val(m1.regs, u, target) == Some(ts) && Val(m1.regs, u, x) == Some([w]) && k < |ts|
    ensures var s2 := Emit(s1, Insert(s1.regs, target, x, k)).(regs := s1.regs + 1);
      Valid(s2) && Reaches(s, s2, m, m2, u) && s2.fn.slots == s1.fn.slots && OperandOk(s2.regs, Reg(s1.regs))
    ensures Val(m2.regs, u, Reg(s1.regs)) == Some(ts[k := w])
    ensures m2.mem == m1.mem
  {
    var i := Insert(s1.regs, target, x, k);
    m2 := SetReg(m1, s1.regs, ts[k := w]);
    RunThenEmit(s, s1, i, Emit(s1, i).(regs := s1.regs + 1), m, m1, m2, u);
  }

  lemma RunLoad(s: St, slot: nat, k: nat, w: Word, m: Machine, u: Word) returns (m': Machine)
    requires Valid(s) && At(s, m) && RegsBelow(s, m)
    requires slot < |s.fn.slots| && k < s.fn.slots[slot] && (slot, k) in m.mem && m.mem[(slot, k)] == w
    ensures var s' := Emit(s, Load(s.regs, slot, k)).(regs := s.regs + 1);
      Valid(s') && Reaches(s, s', m, m', u) && s'.fn.slots == s.fn.slots
    ensures Val(m'.regs, u, Reg(s.regs)) == Some([w])
    ensures m'.mem == m.mem
  {
    ReachesRefl(s, m, u);
    m' := SetReg(m, s.regs, [w]);
    RunThenEmit(s, s, Load(s.regs, slot, k), Emit(s, Load(s.regs, slot, k)).(regs := s.regs + 1), m, m, m', u);
  }

  /** From mem to mem', words k.. of the slot became those of ws, and nothing else changed. */
  ghost predicate Wrote(mem: map<(nat, nat), Word>, mem': map<(nat, nat), Word>, slot: nat, ws: seq<Word>, k: nat) {
    && (forall i: nat | k <= i < |ws| :: (slot, i) in mem' && mem'[(slot, i)] == ws[i])
    && (forall p: (nat, nat) | p in mem && !(p.0 == slot && p.1 >= k) :: p in mem' && mem'[p] == mem[p])
  }

  lemma WroteMore(mem: map<(nat, nat), Word>, mem': map<(nat, nat), Word>, slot: nat, ws: seq<Word>, k: nat)
    requires k < |ws| && Wrote(mem[(slot, k) := ws[k]], mem', slot, ws, k + 1)
    ensures Wrote(mem, mem', slot, ws, k)
  {
    var mem1 := mem[(slot, k) := ws[k]];
    assert (slot, k) in mem1 && !((slot, k).0 == slot && (slot, k).1 >= k + 1);
    forall p: (nat, nat) | p in mem && !(p.0 == slot && p.1 >= k) ensures p in mem' && mem'[p] == mem[p] {
      assert p in mem1 && mem1[p] == mem[p];
    }
  }

  /** Copying words k.. of a value into a slot changes that slot to the value's words. */
  lemma {:induction false} RunWritePlace(s: St, slot: nat, val: Operand, ws: seq<Word>, k: nat, m: Machine, u: Word)
      returns (m': Machine)
    requires Valid(s) && At(s, m) && RegsBelow(s, m)
    requires slot < |s.fn.slots| && s.fn.slots[slot] == |ws|
    requires Val(m.regs, u, val) == Some(ws) && k <= |ws|
    ensures Reaches(s, WritePlace(s, slot, val, |ws|, k), m, m', u)
    ensures Wrote(m.mem, m'.mem, slot, ws, k)
    decreases |ws| - k
  {
    hide Runs, Emit, Val;
    if k == |ws| {
      m' := m;
      ReachesRefl(s, m, u);
    } else {
      hide Valid, Wrote;
      var m1 := RunWordOf(s, val, ws, k, m, u);
      var (s1, x) := WordOf(s, val, |ws|, k);
      ValStable(m, m1, u, val);
      var s2 := Emit(s1, IR.Store(slot, k, x));
      hide WordOf;
      var m2 := RunStore(s, s1, slot, k, x, ws[k], m, m1, u);
      m' := RunWritePlace(s2, slot, val, ws, k + 1, m2, u);
      WroteMore(m.mem, m'.mem, slot, ws, k);
      var s3 := WritePlace(s2, slot, val, |ws|, k + 1);
      WritePlaceAppends(s2, slot, val, |ws|, k + 1);
      AppendsGrows(s2, s3);
      hide Reaches, Grows, Appends;
      ReachesTrans(s, s2, s3, m, m2, m', u);
    }
  }

  /** Words of target with ws copied over positions offset+k.. */
  function Overlay(target: seq<Word>, offset: nat, ws: seq<Word>, k: nat): (r: seq<Word>)
    requires k <= |ws| && offset + |ws| <= |target|
    ensures |r| == |target|
  {
    target[..offset + k] + ws[k..] + target[offset + |ws|..]
  }

  lemma OverlayEnd(target: seq<Word>, offset: nat, ws: seq<Word>)
    requires offset + |ws| <= |target|
    ensures Overlay(target, offset, ws, |ws|) == target
  {
  }

  lemma OverlayStep(target: seq<Word>, offset: nat, ws: seq<Word>, k: nat)
    requires k < |ws| && offset + |ws| <= |target|
    ensures Overlay(target[offset + k := ws[k]], offset, ws, k + 1) == Overlay(target, offset, ws, k)
  {
  }

  lemma {:induction false} RunWriteAggregate(s: St, target: Operand, ts: seq<Word>, offset: nat, val: Operand,
      ws: seq<Word>, k: nat, m: Machine, u: Word) returns (m': Machine)
    requires Valid(s) && At(s, m) && RegsBelow(s, m) && OperandOk(s.regs, target)
    requires Val(m.regs, u, target) == Some(ts) && Val(m.regs, u, val) == Some(ws)
    requires k <= |ws| && offset + |ws| <= |ts|
    ensures var r := WriteAggregate(s, target, offset, val, |ws|, k);
      Reaches(s, r.0, m, m', u) && Val(m'.regs, u, r.1) == Some(Overlay(ts, offset, ws, k))
    ensures m'.mem == m.mem
    decreases |ws| - k
  {
    hide Runs, Emit, Val, Valid, Overlay;
    if k == |ws| {
      m' := m;
      ReachesRefl(s, m, u);
      OverlayEnd(ts, offset, ws);
    } else {
      var m1 := RunWordOf(s, val, ws, k, m, u);
      var (s1, x) := WordOf(s, val, |ws|, k);
      ValStable(m, m1, u, val);
      ValStable(m, m1, u, target);
      hide WordOf;
      var m2 := RunInsert(s, s1, target, ts, x, ws[k], offset + k, m, m1, u);
      var s2 := Emit(s1, Insert(s1.regs, target, x, offset + k)).(regs := s1.regs + 1);
      ValStable(m, m2, u, val);
      m' := RunWriteAggregate(s2, Reg(s1.regs), ts[offset + k := ws[k]], offset, val, ws, k + 1, m2, u);
      OverlayStep(ts, offset, ws, k);
      WriteAggregateAppends(s2, Reg(s1.regs), offset, val, |ws|, k + 1);
      var s3 := WriteAggregate(s2, Reg(s1.regs), offset, val, |ws|, k + 1).0;
      AppendsGrows(s2, s3);
      ReachesTrans(s, s2, s3, m, m2, m', u);
    }
  }

  lemma {:induction false} RunLoadAggregate(s: St, slot: nat, target: Operand, ts: seq<Word>, ws: seq<Word>, k: nat,
      m: Machine, u: Word) returns (m': Machine)
    requires Valid(s) && At(s, m) && RegsBelow(s, m) && OperandOk(s.regs, target)
    requires slot < |s.fn.slots| && s.fn.slots[slot] == |ws| && SlotHolds(m.mem, slot, ws)
    requires Val(m.regs, u, target) == Some(ts) && |ts| == |ws| && k <= |ws|
    ensures var r := LoadAggregate(s, slot, target, |ws|, k);
      Reaches(s, r.0, m, m', u) && Val(m'.regs, u, r.1) == Some(Overlay(ts, 0, ws, k))
    ensures m'.mem == m.mem
    decreases |ws| - k
  {
    hide Runs, Emit, Val, Valid, Overlay;
    if k == |ws| {
      m' := m;
      ReachesRefl(s, m, u);
      OverlayEnd(ts, 0, ws);
    } else {
      var m1 := RunLoad(s, slot, k, ws[k], m, u);
      var s1 := Emit(s, Load(s.regs, slot, k)).(regs := s.regs + 1);
      ValStable(m, m1, u, target);
      var m2 := RunInsert(s, s1, target, ts, Reg(s.regs), ws[k], k, m, m1, u);
      var s2 := Emit(s1, Insert(s1.regs, target, Reg(s.regs), k)).(regs := s1.regs + 1);
      m' := RunLoadAggregate(s2, slot, Reg(s1.regs), ts[k := ws[k]], ws, k + 1, m2, u);
      OverlayStep(ts, 0, ws, k);
      LoadAggregateAppends(s2, slot, Reg(s1.regs), |ws|, k + 1);
      var s3 := LoadAggregate(s2, slot, Reg(s1.regs), |ws|, k + 1).0;
      AppendsGrows(s2, s3);
      ReachesTrans(s, s2, s3, m, m2, m', u);
    }
  }

  /** Reloading a slot gives its current words. */
  lemma RunLoadFrom(s: St, slot: nat, ws: seq<Word>, m: Machine, u: Word) returns (m': Machine)
    requires Valid(s) && At(s, m) && RegsBelow(s, m)
    requires slot < |s.fn.slots| && s.fn.slots[slot] == |ws| && SlotHolds(m.mem, slot, ws)
    ensures var r := LoadFrom(s, slot, |ws|);
      Reaches(s, r.0, m, m', u) && Val(m'.regs, u, r.1) == Some(ws)
    ensures m'.mem == m.mem
  {
    hide Valid;
    if |ws| == 1 {
      assert ws == [ws[0]];
      m' := RunLoad(s, slot, 0, ws[0], m, u);
    } else {
      var ts := seq(|ws|, _ => u);
      m' := RunLoadAggregate(s, slot, Undef(|ws|), ts, ws, 0, m, u);
      assert Overlay(ts, 0, ws, 0) == ws;
    }
  }

  lemma RunTwoAggregates(s: St, a: Info, b: Info, va: seq<Word>, vb: seq<Word>, m: Machine, u: Word)
      returns (m': Machine)
    requires Valid(s) && At(s, m) && RegsBelow(s, m)
    requires |va| == |a.ty| && |vb| == |b.ty| && |va| + |vb| > 1
    requires Val(m.regs, u, a.ir) == Some(va) && Val(m.regs, u, b.ir) == Some(vb)
    ensures var r := EmitConcatenate(s, a, b);
      Reaches(s, r.0, m, m', u) && Val(m'.regs, u, r.1) == Some(va + vb)
    ensures m'.mem == m.mem
  {
    hide Runs, Valid, WriteAggregate, Appends, Grows;
    var total := |a.ty| + |b.ty|;
    var us := seq(total, _ => u);
    var m1 := RunWriteAggregate(s, Undef(total), us, 0, a.ir, va, 0, m, u);
    WriteAggregateAppends(s, Undef(total), 0, a.ir, |a.ty|, 0);
    var (s1, x) := WriteAggregate(s, Undef(total), 0, a.ir, |a.ty|, 0);
    AppendsGrows(s, s1);
    ValStable(m, m1, u, b.ir);
    m' := RunWriteAggregate(s1, x, Overlay(us, 0, va, 0), |va|, b.ir, vb, 0, m1, u);
    WriteAggregateAppends(s1, x, |a.ty|, b.ir, |b.ty|, 0);
    var s2 := WriteAggregate(s1, x, |a.ty|, b.ir, |b.ty|, 0).0;
    AppendsGrows(s1, s2);
    ReachesTrans(s, s1, s2, m, m1, m', u);
    assert Overlay(Overlay(us, 0, va, 0), |va|, vb, 0) == va + vb;
  }

  lemma RunEmitConcatenate(s: St, a: Info, b: Info, va: seq<Word>, vb: seq<Word>, m: Machine, u: Word)
      returns (m': Machine)
    requires Valid(s) && At(s, m) && RegsBelow(s, m)
    requires |va| == |a.ty| && |vb| == |b.ty| && |va| + |vb| > 0
    requires Val(m.regs, u, a.ir) == Some(va) && Val(m.regs, u, b.ir) == Some(vb)
    ensures var r := EmitConcatenate(s, a, b);
      Reaches(s, r.0, m, m', u) && Val(m'.regs, u, r.1) == Some(va + vb)
    ensures m'.mem == m.mem
  {
    hide Runs, Valid;
    if |va| + |vb| > 1 {
      m' := RunTwoAggregates(s, a, b, va, vb, m, u);
    } else {
      m' := m;
      ReachesRefl(s, m, u);
      assert va + vb == if |a.ty| == 1 then va else vb;
    }
  }

  // ---------------------------------------------------------------- operators

  lemma RunCompute(s: St, op: BinOp, a: Operand, b: Operand, x: Word, y: Word, z: Word, m: Machine, u: Word)
      returns (m': Machine)
    requires Valid(s) && At(s, m) && RegsBelow(s, m)
    requires Val(m.regs, u, a) == Some([x]) && Val(m.regs, u, b) == Some([y]) && Apply(op, x, y) == Some(z)
    ensures var r := EmitCompute(s, op, a, b);
      Valid(r.0) && Grows(s, r.0) && Reaches(s, r.0, m, m', u) && Val(m'.regs, u, r.1) == Some([z])
    ensures m'.mem == m.mem
  {
    hide Apply;
    ReachesRefl(s, m, u);
    m' := SetReg(m, s.regs, [z]);
    var s' := EmitCompute(s, op, a, b).0;
    assert Appends(s, s');
    RunThenEmit(s, s, Compute(s.regs, op, a, b), s', m, m, m', u);
  }

  /** The blocks of a guarded operator, spelled out. */
  lemma GuardedCode(s: St, cond: Operand, op: BinOp, x: Operand, y: Operand, other: Operand)
    requires CurOk(s)
    ensures var r := Guarded(s, cond, op, x, y, other); var n := |s.fn.blocks|; var p := r.0.fn;
      && |p.blocks| == n + 3 && p.slots == s.fn.slots
      && p.blocks[s.cur] == s.fn.blocks[s.cur].(term := Some(CondBr(cond, n + 1, n + 2)))
      && p.blocks[n] == IR.Block([Phi(s.regs + 1, Reg(s.regs), n + 1, other, n + 2)], None)
      && p.blocks[n + 1] == IR.Block([Compute(s.regs, op, x, y)], Some(Br(n)))
      && p.blocks[n + 2] == IR.Block([], Some(Br(n)))
      && r.0.cur == n && r.0.regs == s.regs + 2 && r.1 == Reg(s.regs + 1)
  {
  }

  lemma RunTwoSteps(p: Fn, u: Word, m: Machine, m1: Machine, m2: Machine)
    requires Step(p, u, m) == Some(m1) && Step(p, u, m1) == Some(m2)
    ensures Runs(p, u, m, m2)
  {
    hide Step;
    RunsStep(p, u, m, m1);
    RunsStep(p, u, m1, m2);
    RunsCompose(p, u, m, m1, m2);
  }

  /** Running the guarded operator's blocks up to the merge. */
  lemma RunArms(p: Fn, n: nat, r: nat, op: BinOp, x: Operand, y: Operand, c: Word, wx: Word, wy: Word, z: Word,
      m1: Machine, u: Word) returns (m3: Machine)
    requires n + 2 < |p.blocks|
    requires p.blocks[n + 1] == IR.Block([Compute(r, op, x, y)], Some(Br(n)))
    requires p.blocks[n + 2] == IR.Block([], Some(Br(n)))
    requires m1.block == (if c != 0 then n + 1 else n + 2) && m1.pc == 0
    requires c != 0 ==>
      Val(m1.regs, u, x) == Some([wx]) && Val(m1.regs, u, y) == Some([wy]) && Apply(op, wx, wy) == Some(z)
    ensures Runs(p, u, m1, m3) && m3.block == n && m3.pc == 0 && m3.prev == m1.block && m3.mem == m1.mem
    ensures m3.fuel == m1.fuel
    ensures m3.regs == if c != 0 then m1.regs[r := [z]] else m1.regs
  {
    hide Apply, Runs;
    if c != 0 {
      var m2 := SetReg(m1, r, [z]);
      m3 := Jump(m2, n);
      assert Step(p, u, m1) == Some(m2);
      assert Step(p, u, m2) == Some(m3);
      RunTwoSteps(p, u, m1, m2, m3);
    } else {
      m3 := Jump(m1, n);
      assert Step(p, u, m1) == Some(m3);
      RunsStep(p, u, m1, m3);
    }
  }

  /** The operator runs only if the condition holds; `other` is the value otherwise. */
  lemma RunGuarded(s: St, cond: Operand, op: BinOp, x: Operand, y: Operand, other: Operand,
                   c: Word, wx: Word, wy: Word, z: Word, m: Machine, u: Word) returns (m': Machine)
    requires CurOk(s) && At(s, m) && RegsBelow(s, m)
    requires Val(m.regs, u, cond) == Some([c])
    requires Val(m.regs, u, x) == Some([wx]) && Val(m.regs, u, y) == Some([wy])
    requires if c != 0 then Apply(op, wx, wy) == Some(z) else Val(m.regs, u, other) == Some([z])
    ensures var r := Guarded(s, cond, op, x, y, other);
      Reaches(s, r.0, m, m', u) && Val(m'.regs, u, r.1) == Some([z])
    ensures m'.mem == m.mem
  {
    hide Guarded, Apply, Runs;
    var r := Guarded(s, cond, op, x, y, other);
    var n, p := |s.fn.blocks|, r.0.fn;
    GuardedCode(s, cond, op, x, y, other);
    var m1 := Jump(m, if c != 0 then n + 1 else n + 2);
    assert Step(p, u, m) == Some(m1);
    var m3 := RunArms(p, n, s.regs, op, x, y, c, wx, wy, z, m1, u);
    m' := SetReg(m3, s.regs + 1, [z]);
    assert Step(p, u, m3) == Some(m');
    hide Step;
    RunsStep(p, u, m, m1);
    RunsCompose(p, u, m, m1, m3);
    RunsStep(p, u, m3, m');
    RunsCompose(p, u, m, m3, m');
  }

  lemma RunChecked(s: St, cmp: BinOp, limit: Word, op: BinOp, x: Operand, y: Operand, other: Operand,
                   c: Word, wx: Word, wy: Word, z: Word, m: Machine, u: Word) returns (m': Machine)
    requires Valid(s) && At(s, m) && RegsBelow(s, m)
    requires Apply(cmp, wy, limit) == Some(c)
    requires Val(m.regs, u, x) == Some([wx]) && Val(m.regs, u, y) == Some([wy])
    requires if c != 0 then Apply(op, wx, wy) == Some(z) else Val(m.regs, u, other) == Some([z])
    ensures var r := Checked(s, cmp, limit, op, x, y, other);
      Reaches(s, r.0, m, m', u) && Val(m'.regs, u, r.1) == Some([z])
    ensures m'.mem == m.mem
  {
    hide Runs, Valid, Apply, Guarded, EmitCompute;
    var (s1, cond) := EmitCompute(s, cmp, y, Lit([limit]));
    var m1 := RunCompute(s, cmp, y, Lit([limit]), wy, limit, c, m, u);
    ValStable(m, m1, u, x);
    ValStable(m, m1, u, y);
    if c == 0 { ValStable(m, m1, u, other); }
    m' := RunGuarded(s1, cond, op, x, y, other, c, wx, wy, z, m1, u);
    GuardedGrows(s1, cond, op, x, y, other);
    ReachesTrans(s, s1, Guarded(s1, cond, op, x, y, other).0, m, m1, m', u);
  }

  /** Each operator's code computes what the operator means, including its edge cases. */
  lemma RunEmitArith(s: St, op: ArithOp, args: seq<Operand>, ws: seq<Word>, m: Machine, u: Word) returns (m': Machine)
    requires Valid(s) && At(s, m) && RegsBelow(s, m)
    requires |args| == |ws| == Arity(op)
    requires forall i | 0 <= i < |args| :: Val(m.regs, u, args[i]) == Some([ws[i]])
    ensures var r := EmitArith(s, op, args);
      Reaches(s, r.0, m, m', u) && Val(m'.regs, u, r.1) == Some([Denote(op, ws)])
    ensures m'.mem == m.mem
  {
    hide Reaches, Valid, EmitCompute, Checked, At, RegsBelow, Denote, EmitArith;
    if op.UDiv? || op.URem? || op.UShr? || op.SShr? || op.Shl? {
      m' := RunCheckedArith(s, op, args, ws, m, u);
    } else {
      m' := RunPlainArith(s, op, args, ws, m, u);
    }
  }

  lemma RunPlainArith(s: St, op: ArithOp, args: seq<Operand>, ws: seq<Word>, m: Machine, u: Word) returns (m': Machine)
    requires !op.UDiv? && !op.URem? && !op.UShr? && !op.SShr? && !op.Shl?
    requires Valid(s) && At(s, m) && RegsBelow(s, m)
    requires |args| == |ws| == Arity(op)
    requires forall i | 0 <= i < |args| :: Val(m.regs, u, args[i]) == Some([ws[i]])
    ensures var r := EmitArith(s, op, args);
      Reaches(s, r.0, m, m', u) && Val(m'.regs, u, r.1) == Some([Denote(op, ws)])
    ensures m'.mem == m.mem
  {
    hide Reaches, Valid, EmitCompute, Checked;
    var z := Denote(op, ws);
    match op
    case Zero => m' := m; ReachesRefl(s, m, u);
    case Increment => m' := RunCompute(s, IR.Add, args[0], Lit([1]), ws[0], 1, z, m, u);
    case Decrement => m' := RunCompute(s, IR.Sub, args[0], Lit([1]), ws[0], 1, z, m, u);
    case Add => m' := RunCompute(s, IR.Add, args[0], args[1], ws[0], ws[1], z, m, u);
    case Subtract => m' := RunCompute(s, IR.Sub, args[0], args[1], ws[0], ws[1], z, m, u);
    case Multiply => m' := RunCompute(s, IR.Mul, args[0], args[1], ws[0], ws[1], z, m, u);
    case LessU => m' := RunCompute(s, ULT, args[0], args[1], ws[0], ws[1], z, m, u);
    case LessS => m' := RunCompute(s, SLT, args[0], args[1], ws[0], ws[1], z, m, u);
  }

  /** The operators that first test their second operand. */
  lemma RunCheckedArith(s: St, op: ArithOp, args: seq<Operand>, ws: seq<Word>, m: Machine, u: Word)
      returns (m': Machine)
    requires op.UDiv? || op.URem? || op.UShr? || op.SShr? || op.Shl?
    requires Valid(s) && At(s, m) && RegsBelow(s, m)
    requires |args| == |ws| == Arity(op)
    requires forall i | 0 <= i < |args| :: Val(m.regs, u, args[i]) == Some([ws[i]])
    ensures var r := EmitArith(s, op, args);
      Reaches(s, r.0, m, m', u) && Val(m'.regs, u, r.1) == Some([Denote(op, ws)])
    ensures m'.mem == m.mem
  {
    hide Reaches, Valid, EmitCompute, Checked;
    var z := Denote(op, ws);
    match op
    case UDiv => m' := RunChecked(s, NE, 0, IR.UDiv, args[0], args[1], Lit([0]), FromBool(ws[1] != 0), ws[0], ws[1], z,
      m, u);
    case URem => m' := RunChecked(s, NE, 0, IR.URem, args[0], args[1], args[0], FromBool(ws[1] != 0), ws[0], ws[1], z,
      m, u);
    case UShr => m' := RunChecked(s, ULT, 64, LShr, args[0], args[1], Lit([0]), FromBool(ws[1] < 64), ws[0], ws[1], z,
      m, u);
    case SShr => m' := RunChecked(s, ULT, 64, AShr, args[0], args[1], Lit([0]), FromBool(ws[1] < 64), ws[0], ws[1], z,
      m, u);
    case Shl => m' := RunChecked(s, ULT, 64, IR.Shl, args[0], args[1], Lit([0]), FromBool(ws[1] < 64), ws[0], ws[1], z,
      m, u);
  }

  // ---------------------------------------------------------------- finishing an AST

  function AddSlot(s: St, size: nat): St {
    s.(fn := s.fn.(slots := s.fn.slots + [size]))
  }

  lemma AddSlotValid(s: St, size: nat)
    requires Valid(s)
    ensures Valid(AddSlot(s, size)) && Grows(s, AddSlot(s, size))
  {
    hide ScopeOk, ObjectsOk;
    MoreRoom(s.objects, s.fn.slots, s.regs, AddSlot(s, size).fn.slots, s.regs);
  }

  /** Writing a slot no living AST has leaves the living ones as they are. */
  lemma LivingElsewhere(s: St, env: Env, slot: nat, m: Machine, m': Machine, u: Word)
    requires LivingHold(s.objects, env, m, u) && RegsKept(m, m')
    requires forall x | x in s.objects :: s.objects[x].place != Some(slot)
    requires forall p: (nat, nat) | p in m.mem && p.0 != slot :: p in m'.mem && m'.mem[p] == m.mem[p]
    ensures LivingHold(s.objects, env, m', u)
  {
    forall x | x in s.objects ensures Holds(m', u, s.objects[x], env[x]) {
      assert Holds(m, u, s.objects[x], env[x]);
      if s.objects[x].place.None? { ValStable(m, m', u, s.objects[x].ir); }
    }
  }

  lemma FreshSlot(s: St)
    requires ObjectsOk(s.objects, s.fn.slots, s.regs)
    ensures forall x | x in s.objects :: s.objects[x].place != Some(|s.fn.slots|)
  {
    forall x | x in s.objects ensures s.objects[x].place != Some(|s.fn.slots|) {
      assert InfoFits(s.fn.slots, s.regs, s.objects[x]);
    }
  }

  /** A new living AST joins the others. */
  lemma LivingJoins(s: St, env: Env, t: Ptr, info: Info, obj: Obj, m: Machine, u: Word)
    requires LivingHold(s.objects, env, m, u) && t !in s.objects && Holds(m, u, info, obj)
    ensures LivingHold(NewLiving(s, t, info).objects, env[t := obj], m, u)
  {
    var objects, env' := NewLiving(s, t, info).objects, env[t := obj];
    forall x | x in objects ensures Holds(m, u, objects[x], env'[x]) {
      if x != t { assert Holds(m, u, s.objects[x], env[x]); }
    }
  }

  /** A value gets its own slot. */
  lemma RunGiveSlot(s: St, t: Ptr, ir: Operand, ty: Ty, env: Env, ws: seq<Word>, m: Machine, u: Word)
      returns (m': Machine)
    requires Valid(s) && Rel(s, env, m, u) && t !in s.objects
    requires ws != [] && |ws| == |ty| && Val(m.regs, u, ir) == Some(ws)
    ensures var slot := |s.fn.slots|; var info := Info(ty, Lit([]), Some(slot));
      var s' := NewLiving(WritePlace(AddSlot(s, |ty|), slot, ir, |ty|, 0), t, info);
      Reaches(s, s', m, m', u) && LivingHold(s'.objects, env[t := Obj(ws, true)], m', u) && t in s'.objects
        && s'.objects[t] == info
  {
    var slot, s2 := |s.fn.slots|, AddSlot(s, |ty|);
    AddSlotValid(s, |ty|);
    FreshSlot(s);
    hide Valid, Runs, LivingHold;
    m' := RunWritePlace(s2, slot, ir, ws, 0, m, u);
    WritePlaceAppends(s2, slot, ir, |ty|, 0);
    var s3 := WritePlace(s2, slot, ir, |ty|, 0);
    assert Reaches(s, s3, m, m', u);
    LivingElsewhere(s, env, slot, m, m', u);
    LivingJoins(s3, env, t, Info(ty, Lit([]), Some(slot)), Obj(ws, true), m', u);
  }

  lemma LivingRestrict(s0: St, s: St, env0: Env, env: Env, m: Machine, u: Word)
    requires LivingHold(s.objects, env, m, u) && s0.objects.Keys == env0.Keys
    requires forall x | x in s0.objects :: x in s.objects && s.objects[x] == s0.objects[x]
    ensures LivingHold(s0.objects, Restrict(env, env0.Keys), m, u)
  {
    var kept := Restrict(env, env0.Keys);
    forall x | x in s0.objects ensures x in kept && Holds(m, u, s0.objects[x], kept[x]) {
      assert Holds(m, u, s.objects[x], env[x]);
    }
  }

  /** The code of an AST does what evaluating it does. */
  ghost predicate Simulates(s: St, s': St, env': Env, m: Machine, m': Machine, u: Word, info: Info, v: Value,
      usable: bool)
  {
    && Reaches(s, s', m, m', u)
    && LivingHold(s'.objects, env', m', u)
    && ValueRel(s', env', m', u, info, v, usable)
  }

  /** The state when the scope of s has ended, in the code and in the evaluator. */
  lemma LeaveScope(s0: St, s: St, env0: Env, env: Env, m: Machine, u: Word)
    requires Valid(s0) && Valid(s) && Grows(s0, s) && Rel(s, env, m, u) && s0.objects.Keys == env0.Keys
    ensures var s1 := ClearStack(s, |s0.stack|);
      && Valid(s1) && Rel(s1, Restrict(env, env0.Keys), m, u)
      && s1.fn == s.fn && s1.cur == s.cur && s1.regs == s.regs && s1.objects == s0.objects
    ensures forall t | t !in s.objects :: t !in s0.objects
  {
    hide Runs, SlotHolds, Restrict;
    ClearStackKeeps(s0, s, |s0.stack|);
    LivingRestrict(s0, s, env0, env, m, u);
    hide LivingHold;
  }

  lemma RunFinishNamed(s0: St, s: St, t: Ptr, ir: Operand, ty: Ty, env0: Env, env: Env, ws: seq<Word>, m: Machine,
      u: Word) returns (m': Machine)
    requires Valid(s0) && Valid(s) && Grows(s0, s) && Rel(s, env, m, u)
    requires s0.objects.Keys == env0.Keys && t !in s.objects
    requires |ws| == |ty| && Val(m.regs, u, ir) == Some(ws)
    ensures var o := Finish(s, t, true, |s0.stack|, ir, ty); var e := Leave(env0, env, t, true, ws);
      Simulates(s, o.st, e.env, m, m', u, o.res.info, e.value, false)
  {
    hide Runs, Valid, Grows, LivingHold, ClearStack, Restrict;
    LeaveScope(s0, s, env0, env, m, u);
    var s1 := ClearStack(s, |s0.stack|);
    if ty == [] {
      m' := m;
      ReachesRefl(s, m, u);
    } else {
      m' := RunGiveSlot(s1, t, ir, ty, Restrict(env, env0.Keys), ws, m, u);
    }
  }

  /** Ending an AST in the code is leaving its scope in the evaluator. */
  lemma RunFinish(s0: St, s: St, t: Ptr, named: bool, ir: Operand, ty: Ty, env0: Env, env: Env, ws: seq<Word>,
      m: Machine, u: Word) returns (m': Machine)
    requires Valid(s0) && Valid(s) && Grows(s0, s) && Rel(s, env, m, u)
    requires s0.objects.Keys == env0.Keys && t !in s.objects
    requires |ws| == |ty| && Val(m.regs, u, ir) == Some(ws)
    ensures var o := Finish(s, t, named, |s0.stack|, ir, ty); var e := Leave(env0, env, t, named, ws);
      Simulates(s, o.st, e.env, m, m', u, o.res.info, e.value, !named)
  {
    hide Valid, Grows, LivingHold, Runs;
    if named {
      m' := RunFinishNamed(s0, s, t, ir, ty, env0, env, ws, m, u);
    } else {
      m' := m;
      ReachesRefl(s, m, u);
      if ty != [] {
        LivingJoins(s, env, t, Info(ty, ir, None), Obj(ws, false), m, u);
      }
    }
  }

  // ---------------------------------------------------------------- generate_IR

  /** What a later field leaves true of an earlier one. */
  ghost predicate FieldRel(s: St, m: Machine, u: Word, info: Info, v: Value) {
    && |v.words| == |info.ty|
    && Val(m.regs, u, info.ir) == Some(v.words)
    && PlaceRel(s, info, v)
  }

  ghost predicate FieldsRel(s: St, m: Machine, u: Word, infos: seq<Info>, vs: seq<Value>) {
    |infos| == |vs| && forall j | 0 <= j < |infos| :: FieldRel(s, m, u, infos[j], vs[j])
  }

  ghost predicate FieldsFit(fields: seq<Field>, infos: seq<Info>) {
    |infos| <= |fields| &&
    forall j | 0 <= j < |infos| :: fields[j].want.Some? ==> Fits(infos[j].ty, fields[j].want.value)
  }

  function Pointers(fields: seq<Field>): seq<Ptr> {
    seq(|fields|, i requires 0 <= i < |fields| => fields[i].ptr)
  }

  lemma PointersAreOperands(g: Graph, t: Ptr)
    requires WellFormed(g) && t in g && StraightLine(g)
    ensures Pointers(CompiledFields(g[t])) == Operands(g[t]) && |CompiledFields(g[t])| <= 3
  {
  }

  lemma FieldsRelKept(s: St, s': St, m: Machine, m': Machine, u: Word, infos: seq<Info>, vs: seq<Value>)
    requires FieldsRel(s, m, u, infos, vs) && Grows(s, s') && RegsKept(m, m')
    ensures FieldsRel(s', m', u, infos, vs)
  {
    forall j | 0 <= j < |infos| ensures FieldRel(s', m', u, infos[j], vs[j]) {
      assert FieldRel(s, m, u, infos[j], vs[j]);
      ValStable(m, m', u, infos[j].ir);
    }
  }

  lemma SimulateLookup(s: St, t: Ptr, env: Env, m: Machine, u: Word) returns (m': Machine)
    requires Valid(s) && Rel(s, env, m, u) && t in s.objects && s.objects[t].place.Some?
    ensures var info := s.objects[t]; var (s1, x) := LoadFrom(s, info.place.value, |info.ty|);
      Simulates(s, s1, env, m, m', u, info.(ir := x), Value(env[t].words, Some(t)), true)
  {
    var info := s.objects[t];
    assert Holds(m, u, info, env[t]);
    assert InfoFits(s.fn.slots, s.regs, info);
    m' := RunLoadFrom(s, info.place.value, env[t].words, m, u);
    LoadFromAppends(s, info.place.value, |info.ty|);
    LivingKept(s.objects, env, m, m', u);
  }

  lemma {:induction false} Simulate(g: Graph, path: set<Ptr>, s: St, t: Ptr, named: bool, depth: nat, env: Env,
      m: Machine, u: Word) returns (m': Machine)
    requires WellFormed(g) && StraightLine(g) && (t == 0 || t in g) && Within(g, depth, t)
    requires Valid(s) && LivingTyped(g, s.objects) && Rel(s, env, m, u)
    requires Gen(g, path, s, t, named).res.Done?
    ensures Eval(g, depth, env, t, named).Result?
    ensures var o := Gen(g, path, s, t, named); var e := Eval(g, depth, env, t, named);
      Simulates(s, o.st, e.env, m, m', u, o.res.info, e.value, !named)
    decreases |g.Keys - path|, 1, 0
  {
    hide Valid, LivingTyped, LoadFrom, GenFields, GenTag, Runs, StraightLine, EvalBlock, EvalNode, Within;
    if t == 0 {
      m' := m;
      ReachesRefl(s, m, u);
    } else if t in s.objects {
      assert Holds(m, u, s.objects[t], env[t]);
      if s.objects[t].place.Some? {
        m' := SimulateLookup(s, t, env, m, u);
      } else {
        m' := m;
        ReachesRefl(s, m, u);
      }
    } else {
      assert t !in path;
      m' := SimulateNode(g, path, s, t, named, depth, env, m, u);
    }
  }

  /** The code of an AST that is not living yet. */
  function GenNew(g: Graph, path: set<Ptr>, s: St, t: Ptr, named: bool): (o: Out)
    requires WellFormed(g) && t in g && CurOk(s) && t in path
  {
    var f := GenFields(g, path, s, t, CompiledFields(g[t]), 0, []);
    if f.error.Some? then Out(f.st, f.error.value) else GenTag(g, path, f.st, t, named, |s.stack|, f.infos)
  }

  lemma GenIsNew(g: Graph, path: set<Ptr>, s: St, t: Ptr, named: bool)
    requires WellFormed(g) && t in g && CurOk(s) && t !in path && t !in s.objects
    ensures Gen(g, path, s, t, named) == GenNew(g, path + {t}, s, t, named)
  {
    hide GenFields, GenTag;
  }

  lemma BlockIsNew(g: Graph, path: set<Ptr>, s: St, t: Ptr, named: bool)
    requires WellFormed(g) && t in g && CurOk(s) && t in path && g[t].Block?
    ensures GenNew(g, path, s, t, named) == GenBlock(g, path, s, t, g[t].elems, 0, named, NULL_INFO)
  {
    hide GenBlock;
  }

  lemma {:induction false} SimulateNode(g: Graph, path: set<Ptr>, s: St, t: Ptr, named: bool, depth: nat, env: Env,
      m: Machine, u: Word) returns (m': Machine)
    requires WellFormed(g) && StraightLine(g) && t in g && Within(g, depth, t)
    requires Valid(s) && LivingTyped(g, s.objects) && Rel(s, env, m, u)
    requires t !in path && t !in s.objects
    requires Gen(g, path, s, t, named).res.Done?
    ensures Eval(g, depth, env, t, named).Result?
    ensures var o := Gen(g, path, s, t, named); var e := Eval(g, depth, env, t, named);
      Simulates(s, o.st, e.env, m, m', u, o.res.info, e.value, !named)
    decreases |g.Keys - path|, 0, 0
  {
    hide Valid, LivingTyped, StraightLine, EvalBlock, EvalNode, Gen, GenNew, GenBlock, GenTag, GenFields, Within, Rel,
      Simulates, Eval;
    hide WellFormed, BlockSoFar, CompiledFields, Leave;
    var inner := path + {t};
    Narrower(g, path, t);
    NodeStarts(g, s, t, depth, env, m, u);
    GenIsNew(g, path, s, t, named);
    EvalUnfolds(g, depth, env, t, named);
    if g[t].Block? {
      BlockIsNew(g, inner, s, t, named);
      assert g[t].elems[0..] == g[t].elems;
      m' := SimulateBlock(g, inner, s, s, t, g[t].elems, 0, named, NULL_INFO, depth - 1, env, NULL_VALUE, m, m, u);
    } else {
      CompoundIsNew(g, inner, s, t, named);
      m' := SimulateCompound(g, inner, s, t, named, depth - 1, env, m, u);
    }
  }

  lemma Narrower(g: Graph, path: set<Ptr>, t: Ptr)
    requires t in g && t !in path
    ensures |g.Keys - (path + {t})| < |g.Keys - path|
  {
    assert g.Keys - path == g.Keys - (path + {t}) + {t};
  }

  /** Before a node that is not alive is compiled and run. */
  lemma NodeStarts(g: Graph, s: St, t: Ptr, depth: nat, env: Env, m: Machine, u: Word)
    requires WellFormed(g) && t in g && Within(g, depth, t) && Valid(s) && LivingTyped(g, s.objects)
    requires Rel(s, env, m, u)
    requires t !in s.objects
    ensures CurOk(s) && depth > 0 && t !in env && (g[t].Block? ==> g[t].elems == Children(g[t]))
      && forall c | c in Children(g[t]) :: (c == 0 || c in g) && Within(g, depth - 1, c)
    ensures BlockSoFar(g, s, s, NULL_INFO, NULL_VALUE, env, m, m, u)
  {
    hide LivingTyped;
    ReachesRefl(s, m, u);
  }

  lemma EvalUnfolds(g: Graph, depth: nat, env: Env, t: Ptr, named: bool)
    requires WellFormed(g) && t in g && Within(g, depth, t) && t !in env && depth > 0
    requires forall c | c in Children(g[t]) :: (c == 0 || c in g) && Within(g, depth - 1, c)
    ensures g[t].Block? ==> Eval(g, depth, env, t, named) == EvalBlock(g, depth - 1, env, g[t].elems, NULL_VALUE)
    ensures !g[t].Block? && EvalNode(g, depth - 1, env, t).Computed? ==>
      var w := EvalNode(g, depth - 1, env, t); Eval(g, depth, env, t, named) == Leave(env, w.env, t, named, w.words)
  {
    hide EvalBlock, EvalNode, Within, Leave;
  }

  lemma CompoundIsNew(g: Graph, path: set<Ptr>, s: St, t: Ptr, named: bool)
    requires WellFormed(g) && t in g && CurOk(s) && t in path && !g[t].Block?
    ensures var f := GenFields(g, path, s, t, CompiledFields(g[t]), 0, []);
      GenNew(g, path, s, t, named).res.Done? ==>
        f.error.None? && GenNew(g, path, s, t, named) == GenTag(g, path, f.st, t, named, |s.stack|, f.infos)
  {
    hide GenFields, GenTag;
  }

  /** What holds while the fields of t are compiled and run, from s0 and m0 on. */
  ghost predicate FieldsSoFar(g: Graph, s0: St, s: St, fields: seq<Field>, infos: seq<Info>, vs: seq<Value>, env: Env,
      m0: Machine, m: Machine, u: Word)
  {
    && Valid(s) && LivingTyped(g, s.objects) && Rel(s, env, m, u) && Reaches(s0, s, m0, m, u)
    && FieldsRel(s, m, u, infos, vs) && FieldsFit(fields, infos) && FieldsTyped(g, fields, infos)
  }

  /** One more field. */
  lemma {:induction false} SimulateField(g: Graph, path: set<Ptr>, s0: St, s: St, t: Ptr, fields: seq<Field>, i: nat,
      infos: seq<Info>, vs: seq<Value>, depth: nat, env: Env, m0: Machine, m: Machine, u: Word)
      returns (m': Machine)
    requires WellFormed(g) && StraightLine(g) && t in g && i < |fields|
    requires (fields[i].ptr == 0 || fields[i].ptr in g) && Within(g, depth, fields[i].ptr)
    requires |infos| == i && FieldsSoFar(g, s0, s, fields, infos, vs, env, m0, m, u)
    requires var r := Gen(g, path, s, fields[i].ptr, false);
      r.res.Done? && (fields[i].want.Some? ==> Fits(r.res.info.ty, fields[i].want.value))
    ensures var r := Gen(g, path, s, fields[i].ptr, false); var e := Eval(g, depth, env, fields[i].ptr, false);
      e.Result? && FieldsSoFar(g, s0, r.st, fields, infos + [r.res.info], vs + [e.value], e.env, m0, m', u)
    decreases |g.Keys - path|, |fields| - i + 2, 0
  {
    var p := fields[i].ptr;
    var r := Gen(g, path, s, p, false);
    hide Gen, Valid, LivingTyped, Reaches, Rel, ValueRel, Grows, LivingHold, StraightLine, Within, Eval, FieldsRel,
      FieldsFit, FieldsTyped;
    m' := Simulate(g, path, s, p, false, depth, env, m, u);
    GenKeeps(g, path, s, p, false);
    GenSound(g, path, s, p, false);
    var e := Eval(g, depth, env, p, false);
    SimulatesRel(s, r.st, e.env, m, m', u, r.res.info, e.value, true);
    ReachesTrans(s0, s, r.st, m0, m, m', u);
    FieldsRelKept(s, r.st, m, m', u, infos, vs);
    AddField(g, r.st, m', u, fields, infos, vs, r.res.info, e.value);
  }

  lemma FieldIsChild(g: Graph, t: Ptr, fields: seq<Field>, i: nat)
    requires WellFormed(g) && t in g && fields == CompiledFields(g[t]) && i < |fields|
    ensures fields[i].ptr == 0 || fields[i].ptr in g
  {
    CompiledFieldsAreChildren(g[t], i);
  }

  lemma {:induction false} SimulateFields(g: Graph, path: set<Ptr>, s0: St, s: St, t: Ptr, fields: seq<Field>, i: nat,
      infos: seq<Info>, done: seq<Value>, depth: nat, env: Env, m0: Machine, m: Machine, u: Word)
      returns (vs: seq<Value>, env': Env, m': Machine)
    requires WellFormed(g) && StraightLine(g) && t in g && t in path
    requires fields == CompiledFields(g[t]) && i <= |fields| && |infos| == i
    requires forall c | c in Pointers(fields)[i..] :: (c == 0 || c in g) && Within(g, depth, c)
    requires CurOk(s) && FieldsSoFar(g, s0, s, fields, infos, done, env, m0, m, u)
    requires GenFields(g, path, s, t, fields, i, infos).error.None?
    ensures EvalFields(g, depth, env, Pointers(fields)[i..]) == FieldValues(vs, env') && |vs| == |fields| - i
    ensures var f := GenFields(g, path, s, t, fields, i, infos);
      FieldsSoFar(g, s0, f.st, fields, f.infos, done + vs, env', m0, m', u)
    decreases |g.Keys - path|, |fields| - i + 2, 1
  {
    hide FieldsSoFar, Gen, StraightLine, Within, Eval, Fits, CompiledFields, WellFormed;
    if i == |fields| {
      vs, env', m' := [], env, m;
      assert done + vs == done;
    } else {
      FieldIsChild(g, t, fields, i);
      assert Pointers(fields)[i..][0] == fields[i].ptr && Pointers(fields)[i..][1..] == Pointers(fields)[i + 1..];
      assert forall c | c in Pointers(fields)[i + 1..] :: c in Pointers(fields)[i..];
      hide Pointers;
      var r := Gen(g, path, s, fields[i].ptr, false);
      var m1 := SimulateField(g, path, s0, s, t, fields, i, infos, done, depth, env, m0, m, u);
      var e := Eval(g, depth, env, fields[i].ptr, false);
      var rest;
      rest, env', m' := SimulateFields(g, path, s0, r.st, t, fields, i + 1, infos + [r.res.info], done + [e.value],
        depth, e.env, m0, m1, u);
      vs := [e.value] + rest;
      assert done + [e.value] + rest == done + vs;
    }
  }

  lemma SimulatesRel(s: St, s': St, env': Env, m: Machine, m': Machine, u: Word, info: Info, v: Value, usable: bool)
    requires Simulates(s, s', env', m, m', u, info, v, usable)
    ensures Rel(s', env', m', u) && RegsKept(m, m')
    ensures usable ==> FieldRel(s', m', u, info, v)
  {
    hide LivingHold, Runs;
  }

  lemma AddField(g: Graph, s: St, m: Machine, u: Word, fields: seq<Field>, infos: seq<Info>, vs: seq<Value>, info: Info,
      v: Value)
    requires FieldsRel(s, m, u, infos, vs) && FieldsFit(fields, infos) && FieldsTyped(g, fields, infos)
    requires |infos| < |fields| && FieldRel(s, m, u, info, v)
    requires Typed(g, fields[|infos|].ptr, info.ty)
    requires fields[|infos|].want.Some? ==> Fits(info.ty, fields[|infos|].want.value)
    ensures FieldsRel(s, m, u, infos + [info], vs + [v]) && FieldsFit(fields, infos + [info])
    ensures FieldsTyped(g, fields, infos + [info])
  {
    hide FieldRel, Typed, Fits;
  }

  /** What holds between the elements of a basic block entered in s0. */
  ghost predicate BlockSoFar(g: Graph, s0: St, s: St, last: Info, v: Value, env: Env, m0: Machine, m: Machine,
      u: Word)
  {
    && Valid(s) && LivingTyped(g, s.objects) && Rel(s, env, m, u) && Reaches(s0, s, m0, m, u)
    && ValueRel(s, env, m, u, last, v, false)
  }

  /** One more element. */
  lemma {:induction false} SimulateElement(g: Graph, path: set<Ptr>, s0: St, s: St, p: Ptr, last: Info, v: Value,
      depth: nat, env: Env, m0: Machine, m: Machine, u: Word) returns (m': Machine)
    requires WellFormed(g) && StraightLine(g) && (p == 0 || p in g) && Within(g, depth, p)
    requires BlockSoFar(g, s0, s, last, v, env, m0, m, u)
    requires Gen(g, path, s, p, true).res.Done?
    ensures var r := Gen(g, path, s, p, true); var e := Eval(g, depth, env, p, true);
      e.Result? && BlockSoFar(g, s0, r.st, r.res.info, e.value, e.env, m0, m', u)
    decreases |g.Keys - path|, 2, 0
  {
    var r := Gen(g, path, s, p, true);
    hide Gen, Valid, LivingTyped, Reaches, Rel, ValueRel, Grows, LivingHold, StraightLine, Within, Eval;
    m' := Simulate(g, path, s, p, true, depth, env, m, u);
    GenKeeps(g, path, s, p, true);
    GenSound(g, path, s, p, true);
    var e := Eval(g, depth, env, p, true);
    SimulatesRel(s, r.st, e.env, m, m', u, r.res.info, e.value, false);
    ReachesTrans(s0, s, r.st, m0, m, m', u);
  }

  lemma {:induction false} SimulateBlock(g: Graph, path: set<Ptr>, s0: St, s: St, t: Ptr, elems: seq<Ptr>, i: nat,
      named: bool, last: Info, depth: nat, env: Env, v: Value, m0: Machine, m: Machine, u: Word) returns (m': Machine)
    requires WellFormed(g) && StraightLine(g) && t in g && t in path
    requires g[t] == Ast.Block(elems) && i <= |elems|
    requires CurOk(s) && BlockSoFar(g, s0, s, last, v, env, m0, m, u)
    requires GenBlock(g, path, s, t, elems, i, named, last).res.Done?
    requires forall c | c in elems[i..] :: (c == 0 || c in g) && Within(g, depth, c)
    ensures EvalBlock(g, depth, env, elems[i..], v).Result?
    ensures var o := GenBlock(g, path, s, t, elems, i, named, last); var e := EvalBlock(g, depth, env, elems[i..], v);
      Simulates(s0, o.st, e.env, m0, m', u, o.res.info, e.value, !named)
    decreases |g.Keys - path|, |elems| - i + 3, 0
  {
    hide BlockSoFar, Gen, StraightLine, Within, Eval, LoadFrom;
    if i == |elems| {
      m' := SimulateBlockEnd(g, s0, s, last, named, env, v, m0, m, u);
    } else {
      assert elems[i] in Children(g[t]);
      assert elems[i..][0] == elems[i] && elems[i..][1..] == elems[i + 1..];
      assert forall c | c in elems[i + 1..] :: c in elems[i..];
      var r := Gen(g, path, s, elems[i], true);
      var m1 := SimulateElement(g, path, s0, s, elems[i], last, v, depth, env, m0, m, u);
      var e := Eval(g, depth, env, elems[i], true);
      m' := SimulateBlock(g, path, s0, r.st, t, elems, i + 1, named, r.res.info, depth, e.env, e.value, m0, m1, u);
    }
  }

  lemma SimulateBlockEnd(g: Graph, s0: St, s: St, last: Info, named: bool, env: Env, v: Value, m0: Machine, m: Machine,
      u: Word) returns (m': Machine)
    requires CurOk(s) && BlockSoFar(g, s0, s, last, v, env, m0, m, u)
    ensures if !named && last.place.Some? then
        var (s1, x) := LoadFrom(s, last.place.value, |last.ty|);
        Simulates(s0, s1, env, m0, m', u, last.(ir := x), v, true)
      else Simulates(s0, s, env, m0, m', u, last, v, !named)
  {
    if !named && last.place.Some? {
      var p := v.place.value;
      assert Holds(m, u, s.objects[p], env[p]);
      assert InfoFits(s.fn.slots, s.regs, s.objects[p]);
      var s1 := LoadFrom(s, last.place.value, |last.ty|).0;
      m' := RunLoadFrom(s, last.place.value, v.words, m, u);
      LoadFromAppends(s, last.place.value, |last.ty|);
      AppendsGrows(s, s1);
      LivingKept(s.objects, env, m, m', u);
      hide LivingHold, Runs, Valid, Grows;
      ReachesTrans(s0, s, s1, m0, m, m', u);
    } else {
      m' := m;
    }
  }

  // ---------------------------------------------------------------- the tags

  /** An AST in progress: started in s0, its fields compiled by s. */
  ghost predicate Started(path: set<Ptr>, s0: St, s: St, t: Ptr, env0: Env, env: Env, m0: Machine, m: Machine,
      u: Word)
  {
    && t in path && t !in s0.objects
    && Between(path, s0, s)
    && s0.objects.Keys == env0.Keys
    && Rel(s, env, m, u) && Reaches(s0, s, m0, m, u)
  }

  lemma FinishExtends(s: St, t: Ptr, named: bool, base: nat, ir: Operand, ty: Ty)
    requires CurOk(s) && s.fn.blocks[s.cur].term.None?
    ensures Extends(s.fn, Finish(s, t, named, base, ir, ty).st.fn)
  {
    if named && ty != [] {
      WritePlaceAppends(AddSlot(ClearStack(s, base), |ty|), |s.fn.slots|, ir, |ty|, 0);
    }
  }

  /** Every tag ends by finishing with the words the evaluator computed. */
  lemma EndTag(path: set<Ptr>, s0: St, s: St, t: Ptr, named: bool, ir: Operand, ty: Ty,
      env0: Env, env: Env, ws: seq<Word>, m0: Machine, m: Machine, u: Word) returns (m': Machine)
    requires Started(path, s0, s, t, env0, env, m0, m, u)
    requires |ws| == |ty| && Val(m.regs, u, ir) == Some(ws)
    ensures var o := Finish(s, t, named, |s0.stack|, ir, ty); var e := Leave(env0, env, t, named, ws);
      Simulates(s0, o.st, e.env, m0, m', u, o.res.info, e.value, !named)
  {
    hide Reaches, LivingHold;
    m' := RunFinish(s0, s, t, named, ir, ty, env0, env, ws, m, u);
    FinishExtends(s, t, named, |s0.stack|, ir, ty);
    ReachesOnward(s0, s, Finish(s, t, named, |s0.stack|, ir, ty).st, m0, m, m', u);
  }

  /** Emission in between that leaves the scope alone. */
  lemma StartedOnward(path: set<Ptr>, s0: St, s: St, s1: St, t: Ptr, env0: Env, env: Env, env1: Env,
      m0: Machine, m: Machine, m1: Machine, u: Word)
    requires Started(path, s0, s, t, env0, env, m0, m, u)
    requires Valid(s1) && Grows(s, s1) && s1.objects == s.objects
    requires Reaches(s, s1, m, m1, u) && LivingHold(s.objects, env1, m1, u)
    ensures Started(path, s0, s1, t, env0, env1, m0, m1, u)
  {
    hide LivingHold;
    BetweenGrows(path, s0, s, s1);
    hide Valid, Grows, Runs;
    ReachesTrans(s0, s, s1, m0, m, m1, u);
  }

  lemma SimulateArith(path: set<Ptr>, s0: St, s: St, t: Ptr, named: bool, op: ArithOp, infos: seq<Info>, vs: seq<Value>,
      env0: Env, env: Env, m0: Machine, m: Machine, u: Word) returns (m': Machine)
    requires Started(path, s0, s, t, env0, env, m0, m, u)
    requires FieldsRel(s, m, u, infos, vs) && |vs| == Arity(op)
    requires SingleWords(vs)
    ensures var ws := seq(|vs|, i requires 0 <= i < |vs| => vs[i].words[0]);
      var (s1, x) := EmitArith(s, op, seq(|infos|, i requires 0 <= i < |infos| => infos[i].ir));
      var o := Finish(s1, t, named, |s0.stack|, x, INT); var e := Leave(env0, env, t, named, [Denote(op, ws)]);
      Simulates(s0, o.st, e.env, m0, m', u, o.res.info, e.value, !named)
  {
    var args := seq(|infos|, i requires 0 <= i < |infos| => infos[i].ir);
    var ws := seq(|vs|, i requires 0 <= i < |vs| => vs[i].words[0]);
    forall i | 0 <= i < |args| ensures Val(m.regs, u, args[i]) == Some([ws[i]]) {
      assert FieldRel(s, m, u, infos[i], vs[i]);
      assert vs[i].words == [ws[i]];
    }
    hide Valid, Grows, EmitArith, Denote, LivingHold, Runs, PathNotLiving;
    var m1 := RunEmitArith(s, op, args, ws, m, u);
    EmitArithGrows(s, op, args);
    var (s1, x) := EmitArith(s, op, args);
    LivingKept(s.objects, env, m, m1, u);
    StartedOnward(path, s0, s, s1, t, env0, env, env, m0, m, m1, u);
    m' := EndTag(path, s0, s1, t, named, x, INT, env0, env, [Denote(op, ws)], m0, m1, u);
  }

  lemma SimulateConcatenate(path: set<Ptr>, s0: St, s: St, t: Ptr, named: bool, a: Info, b: Info, va: Value, vb: Value,
      env0: Env, env: Env, m0: Machine, m: Machine, u: Word) returns (m': Machine)
    requires Started(path, s0, s, t, env0, env, m0, m, u)
    requires FieldRel(s, m, u, a, va) && FieldRel(s, m, u, b, vb) && InfoOk(s, a) && InfoOk(s, b)
    ensures var o := if a.ty + b.ty == [] then Finish(s, t, named, |s0.stack|, Lit([]), [])
                     else var (s1, x) := EmitConcatenate(s, a, b); Finish(s1, t, named, |s0.stack|, x, a.ty + b.ty);
      var e := Leave(env0, env, t, named, va.words + vb.words);
      Simulates(s0, o.st, e.env, m0, m', u, o.res.info, e.value, !named)
  {
    hide Grows, EmitConcatenate, LivingHold, Runs, PathNotLiving, ScopeOk, ObjectsOk, LabelsOk;
    if a.ty + b.ty == [] {
      assert |a.ty + b.ty| == 0;
      m' := EndTag(path, s0, s, t, named, Lit([]), [], env0, env, [], m0, m, u);
      assert va.words + vb.words == [];
    } else {
      assert |a.ty + b.ty| > 0;
      var m1 := RunEmitConcatenate(s, a, b, va.words, vb.words, m, u);
      EmitConcatenateAppends(s, a, b);
      var (s1, x) := EmitConcatenate(s, a, b);
      AppendsGrows(s, s1);
      LivingKept(s.objects, env, m, m1, u);
      StartedOnward(path, s0, s, s1, t, env0, env, env, m0, m, m1, u);
      m' := EndTag(path, s0, s1, t, named, x, a.ty + b.ty, env0, env, va.words + vb.words, m0, m1, u);
    }
  }

  /** Storing into the slot of one living AST changes that AST only. */
  lemma LivingStored(s: St, env: Env, p: Ptr, ws: seq<Word>, m: Machine, m': Machine, u: Word)
    requires ObjectsOk(s.objects, s.fn.slots, s.regs) && LivingHold(s.objects, env, m, u) && RegsKept(m, m')
    requires p in s.objects && s.objects[p].place.Some? && |ws| == |s.objects[p].ty|
    requires SlotHolds(m'.mem, s.objects[p].place.value, ws)
    requires forall q: (nat, nat) | q in m.mem && q.0 != s.objects[p].place.value ::
      q in m'.mem && m'.mem[q] == m.mem[q]
    ensures LivingHold(s.objects, env[p := Obj(ws, true)], m', u)
  {
    var env' := env[p := Obj(ws, true)];
    assert env'.Keys == env.Keys by { assert p in env.Keys; }
    forall x | x in s.objects ensures Holds(m', u, s.objects[x], env'[x]) {
      if x != p {
        assert Holds(m, u, s.objects[x], env[x]);
        if s.objects[x].place.None? { ValStable(m, m', u, s.objects[x].ir); }
      }
    }
  }

  lemma SimulateStore(path: set<Ptr>, s0: St, s: St, t: Ptr, named: bool, a: Info, b: Info, va: Value, vb: Value,
      env0: Env, env: Env, m0: Machine, m: Machine, u: Word) returns (m': Machine)
    requires Started(path, s0, s, t, env0, env, m0, m, u)
    requires FieldRel(s, m, u, a, va) && FieldRel(s, m, u, b, vb)
    requires a.place.Some? && |a.ty| == |b.ty|
    ensures va.place.Some? && va.place.value in env && |va.words| == |vb.words|
    ensures var s1 := WritePlace(s, a.place.value, b.ir, |b.ty|, 0);
      var o := Finish(s1, t, named, |s0.stack|, Lit([]), []);
      var e := Leave(env0, env[va.place.value := Obj(vb.words, true)], t, named, []);
      Simulates(s0, o.st, e.env, m0, m', u, o.res.info, e.value, !named)
  {
    hide Grows, Runs, PathNotLiving, ScopeOk, LabelsOk;
    var p, slot := va.place.value, a.place.value;
    assert InfoFits(s.fn.slots, s.regs, s.objects[p]);
    var m1 := RunWritePlace(s, slot, b.ir, vb.words, 0, m, u);
    WritePlaceAppends(s, slot, b.ir, |b.ty|, 0);
    var s1 := WritePlace(s, slot, b.ir, |b.ty|, 0);
    AppendsGrows(s, s1);
    LivingStored(s, env, p, vb.words, m, m1, u);
    hide ObjectsOk, LivingHold;
    StartedOnward(path, s0, s, s1, t, env0, env, env[p := Obj(vb.words, true)], m0, m, m1, u);
    m' := EndTag(path, s0, s1, t, named, Lit([]), [], env0, env[p := Obj(vb.words, true)], [], m0, m1, u);
  }

  lemma JoinLengths(a: Ty, b: Ty)
    requires JoinTypes(a, b) != []
    ensures |a| == |b| == |JoinTypes(a, b)|
  {
  }

  /** The condition takes the machine to the start of one of the two branches. */
  lemma RunIfHead(s: St, cond: Operand, w: Word, m: Machine, u: Word) returns (m': Machine)
    requires Valid(s) && At(s, m) && RegsBelow(s, m) && Val(m.regs, u, cond) == Some([w])
    ensures var h := IfHead(s, cond); var n := |s.fn.blocks|;
      Runs(h.fn, u, m, m') && m'.block == (if w != 0 then n + 1 else n + 2) && m'.pc == 0 && RegsBelow(h, m')
    ensures RegsKept(m, m') && m'.mem == m.mem
  {
    var h, n := IfHead(s, cond), |s.fn.blocks|;
    var c := FromBool(w != 0);
    var m1 := RunCompute(s, NE, cond, Lit([0]), w, 0, c, m, u);
    var (s1, x) := EmitCompute(s, NE, cond, Lit([0]));
    assert Extends(s1.fn, h.fn);
    RunsExtend(s1.fn, h.fn, u, m, m1);
    m' := Jump(m1, if w != 0 then n + 1 else n + 2);
    assert h.fn.blocks[m1.block] == s1.fn.blocks[s1.cur].(term := Some(CondBr(x, n + 1, n + 2)));
    assert Step(h.fn, u, m1) == Some(m');
    RunsStep(h.fn, u, m1, m');
    RunsCompose(h.fn, u, m, m1, m');
  }

  /** The end of a branch takes the machine to the merge block. */
  lemma RunBranchEnd(r: St, scope: nat, merge: nat, next: nat, m: Machine, u: Word)
    requires Valid(r) && At(r, m) && next < |r.fn.blocks|
    ensures var e := BranchEnd(r, scope, merge, next);
      Runs(e.fn, u, m, Jump(m, merge)) && Extends(r.fn, e.fn)
  {
    var e := BranchEnd(r, scope, merge, next);
    assert e.fn.blocks[r.cur] == r.fn.blocks[r.cur].(term := Some(Br(merge)));
    assert Step(e.fn, u, m) == Some(Jump(m, merge));
    RunsStep(e.fn, u, m, Jump(m, merge));
  }

  lemma RunsOnward(p: Fn, q: Fn, u: Word, m: Machine, m1: Machine, m2: Machine)
    requires Runs(p, u, m, m1) && Extends(p, q) && Runs(q, u, m1, m2)
    ensures Runs(q, u, m, m2)
  {
    hide Runs, Extends;
    RunsExtend(p, q, u, m, m1);
    RunsCompose(q, u, m, m1, m2);
  }

  /** The result of compiling t goes with its value, as the evaluator leaves t. */
  ghost predicate Left(s0: St, o: Out, t: Ptr, named: bool, env0: Env, env: Env, ws: seq<Word>, m0: Machine, m: Machine,
      u: Word)
    requires o.res.Done?
  {
    var e := Leave(env0, env, t, named, ws);
    Simulates(s0, o.st, e.env, m0, m, u, o.res.info, e.value, !named)
  }

  /** The values of the branches meet in a phi that picks by the block control came from. */
  lemma RunIfTail(path: set<Ptr>, s0: St, s: St, t: Ptr, named: bool, ty: Ty, x0: Operand, from0: nat, x1: Operand,
      from1: nat, env0: Env, env: Env, ws: seq<Word>, m0: Machine, m: Machine, u: Word) returns (m': Machine)
    requires CurOk(s)
    requires Started(path, s0, s, t, env0, env, m0, m, u) && from0 != from1
    requires m.prev == from0 || m.prev == from1
    requires ty != [] ==> |ws| == |ty| && Val(m.regs, u, if m.prev == from0 then x0 else x1) == Some(ws)
    ensures Left(s0, IfTail(s, t, named, |s0.stack|, ty, x0, from0, x1, from1), t, named, env0, env,
      if ty == [] then [] else ws, m0, m', u)
  {
    hide Started, Simulates, Finish, Leave, Emit, Val;
    if ty == [] {
      assert Val(m.regs, u, Lit([])) == Some([]) by { LitValue(m.regs, u, []); }
      m' := EndTag(path, s0, s, t, named, Lit([]), [], env0, env, [], m0, m, u);
    } else {
      var m1 := RunPhi(path, s0, s, t, x0, from0, x1, from1, env0, env, ws, m0, m, u);
      var s1 := Emit(s, Phi(s.regs, x0, from0, x1, from1)).(regs := s.regs + 1);
      m' := EndTag(path, s0, s1, t, named, Reg(s.regs), ty, env0, env, ws, m0, m1, u);
    }
  }

  lemma LitValue(regs: map<nat, seq<Word>>, u: Word, ws: seq<Word>)
    ensures Val(regs, u, Lit(ws)) == Some(ws)
  {
  }

  /** The values of the branches meet in a register. */
  lemma RunPhi(path: set<Ptr>, s0: St, s: St, t: Ptr, x0: Operand, from0: nat, x1: Operand, from1: nat,
      env0: Env, env: Env, ws: seq<Word>, m0: Machine, m: Machine, u: Word) returns (m': Machine)
    requires CurOk(s) && Started(path, s0, s, t, env0, env, m0, m, u) && from0 != from1
    requires m.prev == from0 || m.prev == from1
    requires Val(m.regs, u, if m.prev == from0 then x0 else x1) == Some(ws)
    ensures Started(path, s0, Emit(s, Phi(s.regs, x0, from0, x1, from1)).(regs := s.regs + 1), t, env0, env, m0, m', u)
    ensures Val(m'.regs, u, Reg(s.regs)) == Some(ws)
  {
    hide LivingHold, Runs, PathNotLiving, ScopeOk, ObjectsOk, LabelsOk;
    var phi := Phi(s.regs, x0, from0, x1, from1);
    var s1 := Emit(s, phi).(regs := s.regs + 1);
    m' := SetReg(m, s.regs, ws);
    assert Exec(s.fn, u, m, phi) == Some(m');
    ReachesRefl(s, m, u);
    RunThenEmit(s, s, phi, s1, m, m, m', u);
    assert Appends(s, s1);
    AppendsGrows(s, s1);
    LivingKept(s.objects, env, m, m', u);
    StartedOnward(path, s0, s, s1, t, env0, env, env, m0, m, m', u);
  }

  /** The states of the compiler around the two branches of an `if`. */
  ghost predicate IfStates(g: Graph, path: set<Ptr>, s: St, cond: Operand, thn: Ptr, els: Ptr, h: St, r0: Out, h1: St,
      r1: Out, end: St)
  {
    && WellFormed(g) && (thn == 0 || thn in g) && (els == 0 || els in g)
    && CurOk(s) && CurOk(h) && CurOk(h1)
    && h == IfHead(s, cond)
    && r0 == Gen(g, path, h, thn, false) && r0.res.Done?
    && |s.fn.blocks| + 2 < |r0.st.fn.blocks| && CurOk(r0.st)
    && h1 == BranchEnd(r0.st, |s.stack|, |s.fn.blocks|, |s.fn.blocks| + 2)
    && r1 == Gen(g, path, h1, els, false) && r1.res.Done?
    && |s.fn.blocks| < |r1.st.fn.blocks| && CurOk(r1.st)
    && end == BranchEnd(r1.st, |s.stack|, |s.fn.blocks|, |s.fn.blocks|)
  }

  /** What the compiler guarantees about those states. */
  ghost predicate IfFacts(g: Graph, path: set<Ptr>, s0: St, s: St, h: St, r0: Out, h1: St, r1: Out, end: St) {
    var n := |s.fn.blocks|;
    && Valid(h) && Valid(r0.st) && Valid(h1) && Valid(r1.st) && Between(path, s0, end)
    && Grows(h, r0.st) && Grows(h1, r1.st) && Grows(s, h1) && Grows(s, end)
    && Extends(r0.st.fn, h1.fn) && Extends(r1.st.fn, end.fn)
    && h.regs <= h1.regs && h1.regs <= end.regs && r0.st.regs <= h1.regs && r1.st.regs <= end.regs
    && h.objects == s.objects && h1.objects == s.objects && end.objects == s.objects
    && LivingTyped(g, r0.st.objects) && LivingTyped(g, r1.st.objects)
    && h.cur == n + 1 && h.fn.blocks[n + 1].body == []
    && h1.cur == n + 2 && h1.fn.blocks[n + 2].body == []
    && end.cur == n && n < |end.fn.blocks| && end.fn.blocks[n].body == []
    && r0.st.cur != r1.st.cur
  }

  lemma IfFactsHold(g: Graph, path: set<Ptr>, s0: St, s: St, t: Ptr, cond: Operand, thn: Ptr, els: Ptr, h: St, r0: Out,
      h1: St, r1: Out, end: St)
    requires Between(path, s0, s) && LivingTyped(g, s.objects)
    requires IfStates(g, path, s, cond, thn, els, h, r0, h1, r1, end)
    ensures IfFacts(g, path, s0, s, h, r0, h1, r1, end)
  {
    hide Gen, Valid, Grows, PathNotLiving, LivingTyped, IfHead, BranchEnd, Extends, InfoOk, WellFormed;
    var n := |s.fn.blocks|;
    IfHeadGrows(s, cond);
    GenKeeps(g, path, h, thn, false);
    GenSound(g, path, h, thn, false);
    GrowsTrans(s, h, r0.st);
    GrowsLeaves(h, r0.st, n);
    GrowsLeaves(h, r0.st, n + 2);
    BranchEndKeeps(path, s0, s, r0.st, n, n + 2);
    BranchEndExtends(r0.st, |s.stack|, n, n + 2);
    GenKeeps(g, path, h1, els, false);
    GenSound(g, path, h1, els, false);
    GrowsTrans(s, h1, r1.st);
    GrowsLeaves(h1, r1.st, n);
    GrowsLeaves(h1, r1.st, r0.st.cur);
    BranchEndKeeps(path, s0, s, r1.st, n, n);
    BranchEndExtends(r1.st, |s.stack|, n, n);
    RegsGrow(h, r0.st);
    RegsGrow(h1, r1.st);
  }

  lemma RegsGrow(s: St, s': St)
    requires Grows(s, s')
    ensures s.regs <= s'.regs && |s.fn.blocks| <= |s'.fn.blocks|
  {
  }

  lemma BranchEndExtends(r: St, scope: nat, merge: nat, next: nat)
    requires Valid(r) && next < |r.fn.blocks|
    ensures var e := BranchEnd(r, scope, merge, next); Extends(r.fn, e.fn) && e.regs == r.regs
  {
  }

  /** Reaching the merge block from one branch: where the machine is, and what it holds. */
  ghost predicate Merged(s: St, end: St, env: Env, branchEnv: Env, m: Machine, m': Machine, u: Word, from: nat,
      info: Info, v: Value)
  {
    && Reaches(s, end, m, m', u) && m'.prev == from
    && LivingHold(s.objects, Restrict(branchEnv, env.Keys), m', u)
    && |v.words| == |info.ty| && Val(m'.regs, u, info.ir) == Some(v.words)
  }

  /** From the end of a branch to the merge block. */
  lemma MergeFrom(s: St, r: St, mid: St, end: St, env: Env, branchEnv: Env, next: nat, m: Machine, m2: Machine, u: Word,
      info: Info, v: Value)
    requires Valid(r) && Grows(s, r) && |s.fn.blocks| < |r.fn.blocks|
    requires s.objects.Keys == env.Keys
    requires Runs(r.fn, u, m, m2) && RegsKept(m, m2)
    requires Rel(r, branchEnv, m2, u) && FieldRel(r, m2, u, info, v)
    requires next < |r.fn.blocks| && mid == BranchEnd(r, |s.stack|, |s.fn.blocks|, next)
    requires Extends(mid.fn, end.fn) && CurOk(end) && end.cur == |s.fn.blocks| && end.fn.blocks[end.cur].body == []
    requires r.regs <= end.regs
    ensures Merged(s, end, env, branchEnv, m, Jump(m2, |s.fn.blocks|), u, r.cur, info, v)
  {
    var n := |s.fn.blocks|;
    RunBranchEnd(r, |s.stack|, n, next, m2, u);
    LivingRestrict(s, r, env, branchEnv, m2, u);
    var m3 := Jump(m2, n);
    LivingKept(s.objects, Restrict(branchEnv, env.Keys), m2, m3, u);
    hide Runs, Extends, Valid, Grows, LivingHold, BranchEnd;
    RunsOnward(r.fn, mid.fn, u, m, m2, m3);
    RunsExtend(mid.fn, end.fn, u, m, m3);
  }

  /** The branch taken, up to the merge block. */
  lemma {:induction false} SimulateThen(g: Graph, path: set<Ptr>, s0: St, s: St, cond: Operand, w: Word, thn: Ptr,
      els: Ptr, h: St, r0: Out, h1: St, r1: Out, end: St, depth: nat, env: Env, m: Machine,
      u: Word) returns (m': Machine)
    requires WellFormed(g) && StraightLine(g) && (thn == 0 || thn in g) && Within(g, depth, thn) && w != 0
    requires IfStates(g, path, s, cond, thn, els, h, r0, h1, r1, end) && IfFacts(g, path, s0, s, h, r0, h1, r1, end)
    requires Valid(s) && LivingTyped(g, s.objects) && Rel(s, env, m, u) && Val(m.regs, u, cond) == Some([w])
    ensures var e := Eval(g, depth, env, thn, false);
      e.Result? && Merged(s, end, env, e.env, m, m', u, r0.st.cur, r0.res.info, e.value)
    decreases |g.Keys - path|, 2, 0
  {
    hide Gen, LivingTyped, LivingHold, Grows, Eval, Within, StraightLine, BranchEnd, Runs, Extends, WellFormed,
      ValueRel;
    var n := |s.fn.blocks|;
    var m1 := RunIfHead(s, cond, w, m, u);
    LivingKept(s.objects, env, m, m1, u);
    assert Rel(h, env, m1, u);
    hide Valid, IfHead, RegsBelow;
    var m2 := Simulate(g, path, h, thn, false, depth, env, m1, u);
    var e := Eval(g, depth, env, thn, false);
    SimulatesRel(h, r0.st, e.env, m1, m2, u, r0.res.info, e.value, true);
    GrowsExtends(h, r0.st);
    RunsOnward(h.fn, r0.st.fn, u, m, m1, m2);
    GrowsExtends(h1, r1.st);
    ExtendsTrans(h1.fn, r1.st.fn, end.fn);
    GrowsFrom(s, h, r0.st, cond);
    LivingKeys(s.objects, env, m, u);
    MergeFrom(s, r0.st, h1, end, env, e.env, n + 2, m, m2, u, r0.res.info, e.value);
    m' := Jump(m2, n);
  }

  lemma LivingKeys(objects: map<Ptr, Info>, env: Env, m: Machine, u: Word)
    requires LivingHold(objects, env, m, u)
    ensures objects.Keys == env.Keys
  {
  }

  lemma GrowsFrom(s: St, h: St, r: St, cond: Operand)
    requires Valid(s) && h == IfHead(s, cond) && Grows(h, r)
    ensures Grows(s, r)
  {
    IfHeadGrows(s, cond);
    hide Valid, Grows, IfHead;
    GrowsTrans(s, h, r);
  }

  lemma ExtendsTrans(p: Fn, q: Fn, r: Fn)
    requires Extends(p, q) && Extends(q, r)
    ensures Extends(p, r)
  {
    forall i | 0 <= i < |p.blocks|
      ensures p.blocks[i].body <= r.blocks[i].body && (p.blocks[i].term.Some? ==> r.blocks[i] == p.blocks[i])
    {
      assert p.blocks[i].body <= q.blocks[i].body <= r.blocks[i].body;
    }
  }

  /** The branch not taken by the compiler first: control reaches it from the condition. */
  lemma {:induction false} SimulateElse(g: Graph, path: set<Ptr>, s0: St, s: St, cond: Operand, w: Word, thn: Ptr,
      els: Ptr, h: St, r0: Out, h1: St, r1: Out, end: St, depth: nat, env: Env, m: Machine,
      u: Word) returns (m': Machine)
    requires WellFormed(g) && StraightLine(g) && (els == 0 || els in g) && Within(g, depth, els) && w == 0
    requires IfStates(g, path, s, cond, thn, els, h, r0, h1, r1, end) && IfFacts(g, path, s0, s, h, r0, h1, r1, end)
    requires Valid(s) && LivingTyped(g, s.objects) && Rel(s, env, m, u) && Val(m.regs, u, cond) == Some([w])
    ensures var e := Eval(g, depth, env, els, false);
      e.Result? && Merged(s, end, env, e.env, m, m', u, r1.st.cur, r1.res.info, e.value)
    decreases |g.Keys - path|, 2, 0
  {
    hide Gen, LivingTyped, LivingHold, Grows, Eval, Within, StraightLine, BranchEnd, Runs, Extends, WellFormed,
      ValueRel;
    var n := |s.fn.blocks|;
    var m1 := RunIfHead(s, cond, w, m, u);
    LivingKept(s.objects, env, m, m1, u);
    assert Rel(h1, env, m1, u);
    hide Valid, IfHead, RegsBelow;
    GrowsExtends(h, r0.st);
    ExtendsTrans(h.fn, r0.st.fn, h1.fn);
    GrowsExtends(h1, r1.st);
    ExtendsTrans(h.fn, h1.fn, r1.st.fn);
    var m2 := Simulate(g, path, h1, els, false, depth, env, m1, u);
    var e := Eval(g, depth, env, els, false);
    SimulatesRel(h1, r1.st, e.env, m1, m2, u, r1.res.info, e.value, true);
    RunsOnward(h.fn, r1.st.fn, u, m, m1, m2);
    GrowsTrans(s, h1, r1.st);
    LivingKeys(s.objects, env, m, u);
    ExtendsRefl(end.fn);
    MergeFrom(s, r1.st, end, end, env, e.env, n, m, m2, u, r1.res.info, e.value);
    m' := Jump(m2, n);
  }

  lemma ExtendsRefl(p: Fn)
    ensures Extends(p, p)
  {
  }

  lemma BranchesInGraph(g: Graph, t: Ptr)
    requires WellFormed(g) && t in g && g[t].If?
    ensures (g[t].thn == 0 || g[t].thn in g) && (g[t].els == 0 || g[t].els in g)
  {
    assert g[t].thn in Children(g[t]) && g[t].els in Children(g[t]);
  }

  lemma IfStatesHold(g: Graph, path: set<Ptr>, s: St, t: Ptr, named: bool, base: nat, cond: Operand, thn: Ptr, els: Ptr)
      returns (h: St, r0: Out, h1: St, r1: Out, end: St)
    requires WellFormed(g) && t in g && CurOk(s) && t in path
    requires g[t].If? && thn == g[t].thn && els == g[t].els
    requires GenIf(g, path, s, t, named, base, cond, thn, els).res.Done?
    ensures IfStates(g, path, s, cond, thn, els, h, r0, h1, r1, end)
    ensures CurOk(end) && r0.res.Done? && r1.res.Done?
    ensures GenIf(g, path, s, t, named, base, cond, thn, els) ==
      IfTail(end, t, named, base, JoinTypes(r0.res.info.ty, r1.res.info.ty), r0.res.info.ir, r0.st.cur, r1.res.info.ir,
        r1.st.cur)
  {
    hide Gen, IfTail, JoinTypes, IfHead, BranchEnd, WellFormed, ClearStack, Children;
    BranchesInGraph(g, t);
    var n := |s.fn.blocks|;
    h := IfHead(s, cond);
    r0 := Gen(g, path, h, thn, false);
    h1 := BranchEnd(r0.st, |s.stack|, n, n + 2);
    r1 := Gen(g, path, h1, els, false);
    end := BranchEnd(r1.st, |s.stack|, n, n);
  }

  lemma {:induction false} SimulateIf(g: Graph, path: set<Ptr>, s0: St, s: St, t: Ptr, named: bool, cond: Operand,
      w: Word, thn: Ptr, els: Ptr, depth: nat, env0: Env, env: Env, m0: Machine, m: Machine,
      u: Word) returns (m': Machine)
    requires WellFormed(g) && StraightLine(g) && t in g && g[t].If? && thn == g[t].thn && els == g[t].els
    requires (thn == 0 || thn in g) && (els == 0 || els in g) && Within(g, depth, thn) && Within(g, depth, els)
    requires Started(path, s0, s, t, env0, env, m0, m, u) && LivingTyped(g, s.objects)
    requires Val(m.regs, u, cond) == Some([w])
    requires GenIf(g, path, s, t, named, |s0.stack|, cond, thn, els).res.Done?
    ensures Eval(g, depth, env, if w != 0 then thn else els, false).Result?
    ensures var branch := Eval(g, depth, env, if w != 0 then thn else els, false);
      var ws := if JoinTypes(TypeOf(g, depth, thn), TypeOf(g, depth, els)) == [] then [] else branch.value.words;
      Left(s0, GenIf(g, path, s, t, named, |s0.stack|, cond, thn, els), t, named, env0, Restrict(branch.env, env.Keys),
        ws, m0, m', u)
    decreases |g.Keys - path|, 3, 0
  {
    hide Valid, LivingTyped, Grows, PathNotLiving, LivingHold, Reaches, Within, StraightLine, Eval, TypeOf, JoinTypes,
      Restrict, GenIf;
    hide IfTail, Left;
    assert Between(path, s0, s);
    var h, r0, h1, r1, end := IfStatesHold(g, path, s, t, named, |s0.stack|, cond, thn, els);
    hide IfStates, Started;
    IfFactsHold(g, path, s0, s, t, cond, thn, els, h, r0, h1, r1, end);
    hide IfFacts, WellFormed;
    IfTypes(g, path, s0, s, cond, thn, els, h, r0, h1, r1, end, depth);
    var ty := JoinTypes(r0.res.info.ty, r1.res.info.ty);
    var m1, e := SimulateBranch(g, path, s0, s, t, cond, w, thn, els, h, r0, h1, r1, end, depth, env0, env, m0, m, u);
    if ty != [] { JoinLengths(r0.res.info.ty, r1.res.info.ty); }
    m' := RunIfTail(path, s0, end, t, named, ty, r0.res.info.ir, r0.st.cur, r1.res.info.ir, r1.st.cur,
                    env0, Restrict(e.env, env.Keys), e.value.words, m0, m1, u);
  }

  /** Control comes from the end of a branch, whose value is where it was left. */
  ghost predicate AtMerge(path: set<Ptr>, s0: St, end: St, t: Ptr, env0: Env, env: Env, m0: Machine, m: Machine,
      u: Word, r: Out, e: Outcome)
  {
    && e.Result? && r.res.Done? && Started(path, s0, end, t, env0, Restrict(e.env, env.Keys), m0, m, u)
    && m.prev == r.st.cur && Val(m.regs, u, r.res.info.ir) == Some(e.value.words) && |e.value.words| == |r.res.info.ty|
  }

  /** The branch that the condition selects runs to the merge. */
  lemma {:induction false} SimulateBranch(g: Graph, path: set<Ptr>, s0: St, s: St, t: Ptr, cond: Operand, w: Word,
      thn: Ptr, els: Ptr, h: St, r0: Out, h1: St, r1: Out, end: St, depth: nat, env0: Env, env: Env, m0: Machine,
      m: Machine, u: Word)
      returns (m': Machine, e: Outcome)
    requires WellFormed(g) && StraightLine(g)
    requires (thn == 0 || thn in g) && (els == 0 || els in g) && Within(g, depth, thn) && Within(g, depth, els)
    requires IfStates(g, path, s, cond, thn, els, h, r0, h1, r1, end) && IfFacts(g, path, s0, s, h, r0, h1, r1, end)
    requires Started(path, s0, s, t, env0, env, m0, m, u) && LivingTyped(g, s.objects)
    requires Val(m.regs, u, cond) == Some([w])
    ensures e == Eval(g, depth, env, if w != 0 then thn else els, false) && r0.st.cur != r1.st.cur
    ensures AtMerge(path, s0, end, t, env0, env, m0, m', u, if w != 0 then r0 else r1, e)
    decreases |g.Keys - path|, 2, 1
  {
    hide Valid, LivingTyped, Grows, PathNotLiving, LivingHold, Reaches, Within, StraightLine, Eval, Restrict, Merged;
    assert Valid(s) && Rel(s, env, m, u);
    assert r0.res.Done? && r1.res.Done?;
    hide IfStates, IfFacts, WellFormed, Started, Rel;
    e := Eval(g, depth, env, if w != 0 then thn else els, false);
    if w != 0 {
      m' := SimulateThen(g, path, s0, s, cond, w, thn, els, h, r0, h1, r1, end, depth, env, m, u);
      StartedMerged(g, path, s0, s, t, h, r0, h1, r1, end, env0, env, e.env, m0, m, m', u, r0.st.cur, r0.res.info,
        e.value);
    } else {
      m' := SimulateElse(g, path, s0, s, cond, w, thn, els, h, r0, h1, r1, end, depth, env, m, u);
      StartedMerged(g, path, s0, s, t, h, r0, h1, r1, end, env0, env, e.env, m0, m, m', u, r1.st.cur, r1.res.info,
        e.value);
    }
  }

  /** The static types of the branches are the ones the compiler recorded. */
  lemma IfTypes(g: Graph, path: set<Ptr>, s0: St, s: St, cond: Operand, thn: Ptr, els: Ptr, h: St, r0: Out, h1: St,
      r1: Out, end: St, depth: nat)
    requires WellFormed(g) && (thn == 0 || thn in g) && (els == 0 || els in g) && Within(g, depth, thn)
    requires Within(g, depth, els)
    requires IfStates(g, path, s, cond, thn, els, h, r0, h1, r1, end) && IfFacts(g, path, s0, s, h, r0, h1, r1, end)
    requires LivingTyped(g, s.objects)
    ensures r0.res.info.ty == TypeOf(g, depth, thn) && r1.res.info.ty == TypeOf(g, depth, els)
  {
    hide Gen, Valid, Grows, Extends, IfHead, BranchEnd, WellFormed, PathNotLiving, LivingTyped;
    GenSound(g, path, h, thn, false);
    GenSound(g, path, h1, els, false);
    TypedAt(g, thn, r0.res.info.ty, depth);
    TypedAt(g, els, r1.res.info.ty, depth);
  }

  lemma StartedMerged(g: Graph, path: set<Ptr>, s0: St, s: St, t: Ptr, h: St, r0: Out, h1: St, r1: Out, end: St,
      env0: Env, env: Env, branchEnv: Env, m0: Machine, m: Machine, m1: Machine, u: Word, from: nat, info: Info,
        v: Value)
    requires IfFacts(g, path, s0, s, h, r0, h1, r1, end)
    requires Started(path, s0, s, t, env0, env, m0, m, u)
    requires Merged(s, end, env, branchEnv, m, m1, u, from, info, v)
    ensures Started(path, s0, end, t, env0, Restrict(branchEnv, env.Keys), m0, m1, u)
    ensures r0.st.cur != r1.st.cur && m1.prev == from && Val(m1.regs, u, info.ir) == Some(v.words)
    ensures |v.words| == |info.ty|
  {
    hide Valid, Grows, Extends, LivingHold, Runs, PathNotLiving, Restrict, LivingTyped;
    ReachesTrans(s0, s, end, m0, m, m1, u);
  }

  /** An AST that is not a basic block, with t already on the path. */
  lemma {:induction false} SimulateCompound(g: Graph, path: set<Ptr>, s: St, t: Ptr, named: bool, depth: nat, env: Env,
      m: Machine, u: Word) returns (m': Machine)
    requires WellFormed(g) && StraightLine(g) && t in g && t in path && !g[t].Block?
    requires forall c | c in Children(g[t]) :: Within(g, depth, c)
    requires Valid(s) && LivingTyped(g, s.objects) && Rel(s, env, m, u) && t !in s.objects
    requires var f := GenFields(g, path, s, t, CompiledFields(g[t]), 0, []);
      f.error.None? && GenTag(g, path, f.st, t, named, |s.stack|, f.infos).res.Done?
    ensures EvalNode(g, depth, env, t).Computed?
    ensures var f := GenFields(g, path, s, t, CompiledFields(g[t]), 0, []);
      var o := GenTag(g, path, f.st, t, named, |s.stack|, f.infos); var w := EvalNode(g, depth, env, t);
      var e := Leave(env, w.env, t, named, w.words);
      Simulates(s, o.st, e.env, m, m', u, o.res.info, e.value, !named)
    decreases |g.Keys - path|, 10, 0
  {
    hide Valid, LivingTyped, StraightLine, GenFields, GenTag, Within, Rel, Reaches, EvalFields, EvalNode, FieldsSoFar,
      Between, InfosOk;
    hide WellFormed, Leave, CompiledFields, Started, Simulates;
    var fields := CompiledFields(g[t]);
    PointersAreOperands(g, t);
    OperandsWithin(g, t, depth);
    assert Operands(g[t])[0..] == Operands(g[t]);
    FieldsStart(g, path, s, fields, env, m, u);
    GenFieldsKeeps(g, path, s, s, t, fields, 0, []);
    var f := GenFields(g, path, s, t, fields, 0, []);
    var vs, env1, m1 := SimulateFields(g, path, s, s, t, fields, 0, [], [], depth, env, m, m, u);
    assert [] + vs == vs;
    FieldsStarted(g, path, s, f.st, t, fields, f.infos, vs, env, env1, m, m1, u);
    m' := SimulateTag(g, path, s, f.st, t, named, f.infos, vs, depth, env, env1, m, m1, u);
  }

  /** Before the fields are compiled and run. */
  lemma FieldsStart(g: Graph, path: set<Ptr>, s: St, fields: seq<Field>, env: Env, m: Machine, u: Word)
    requires Valid(s) && LivingTyped(g, s.objects) && Rel(s, env, m, u)
    ensures CurOk(s) && FieldsSoFar(g, s, s, fields, [], [], env, m, m, u) && Between(path, s, s) && InfosOk(s, [])
  {
    hide LivingTyped;
    ReachesRefl(s, m, u);
    BetweenRefl(path, s);
  }

  /** After that, the tag itself can be run. */
  lemma FieldsStarted(g: Graph, path: set<Ptr>, s: St, s': St, t: Ptr, fields: seq<Field>, infos: seq<Info>,
      vs: seq<Value>, env: Env, env': Env, m: Machine, m': Machine, u: Word)
    requires Rel(s, env, m, u) && t in path && t !in s.objects
    requires FieldsSoFar(g, s, s', fields, infos, vs, env', m, m', u) && Between(path, s, s')
    ensures CurOk(s') && Started(path, s, s', t, env, env', m, m', u)
  {
    hide LivingTyped, Valid, Reaches, PathNotLiving, Grows;
  }

  lemma OperandsWithin(g: Graph, t: Ptr, depth: nat)
    requires WellFormed(g) && t in g && forall c | c in Children(g[t]) :: Within(g, depth, c)
    ensures forall c | c in Operands(g[t]) :: (c == 0 || c in g) && Within(g, depth, c)
  {
    forall c | c in Operands(g[t]) ensures c in Children(g[t]) {}
  }

  lemma {:induction false} SimulateTag(g: Graph, path: set<Ptr>, s0: St, s: St, t: Ptr, named: bool, infos: seq<Info>,
      vs: seq<Value>, depth: nat, env0: Env, env: Env, m0: Machine, m: Machine, u: Word) returns (m': Machine)
    requires WellFormed(g) && StraightLine(g) && t in g && t in path && !g[t].Block?
    requires forall c | c in Children(g[t]) :: Within(g, depth, c)
    requires Started(path, s0, s, t, env0, env, m0, m, u)
    requires |vs| == |CompiledFields(g[t])| && FieldsSoFar(g, s0, s, CompiledFields(g[t]), infos, vs, env, m0, m, u)
    requires InfosOk(s, infos)
    requires EvalFields(g, depth, env0, Operands(g[t])) == FieldValues(vs, env)
    requires GenTag(g, path, s, t, named, |s0.stack|, infos).res.Done?
    ensures EvalNode(g, depth, env0, t).Computed?
    ensures var o := GenTag(g, path, s, t, named, |s0.stack|, infos); var w := EvalNode(g, depth, env0, t);
      var e := Leave(env0, w.env, t, named, w.words);
      Simulates(s0, o.st, e.env, m0, m', u, o.res.info, e.value, !named)
    decreases |g.Keys - path|, 9, 0
  {
    hide Valid, LivingTyped, StraightLine, GenFields, Within, LivingHold, Reaches, Grows, PathNotLiving, EvalFields,
      Finish, Leave;
    hide GenIf, EmitArith, EmitConcatenate, WritePlace, Gen, TypeOf, JoinTypes;
    if g[t].If? {
      assert g[t].thn in Children(g[t]) && g[t].els in Children(g[t]);
      ConditionIsWord(s, m, u, CompiledFields(g[t]), infos, vs);
      m' := SimulateIf(g, path, s0, s, t, named, infos[0].ir, vs[0].words[0], g[t].thn, g[t].els, depth, env0, env, m0,
        m, u);
    } else {
      m' := SimulateSimple(g, path, s0, s, t, named, infos, vs, depth, env0, env, m0, m, u);
    }
  }

  /** Fields that were checked to be integers have one word. */
  lemma ConditionIsWord(s: St, m: Machine, u: Word, fields: seq<Field>, infos: seq<Info>, vs: seq<Value>)
    requires FieldsRel(s, m, u, infos, vs) && FieldsFit(fields, infos) && |infos| == |fields|
    requires forall i | 0 <= i < |fields| :: fields[i].want == Some(INT)
    ensures SingleWords(vs)
    ensures forall i | 0 <= i < |vs| :: Val(m.regs, u, infos[i].ir) == Some([vs[i].words[0]])
  {
    forall i | 0 <= i < |vs| ensures |vs[i].words| == 1 && Val(m.regs, u, infos[i].ir) == Some([vs[i].words[0]]) {
      assert FieldRel(s, m, u, infos[i], vs[i]);
      assert fields[i].want.Some?;
      assert vs[i].words == [vs[i].words[0]];
    }
  }

  /** The tags whose own code does not contain other ASTs. */
  lemma SimulateSimple(g: Graph, path: set<Ptr>, s0: St, s: St, t: Ptr, named: bool, infos: seq<Info>, vs: seq<Value>,
      depth: nat, env0: Env, env: Env, m0: Machine, m: Machine, u: Word) returns (m': Machine)
    requires WellFormed(g) && StraightLine(g) && t in g && t in path && !g[t].Block? && !g[t].If?
    requires forall c | c in Children(g[t]) :: Within(g, depth, c)
    requires Started(path, s0, s, t, env0, env, m0, m, u)
    requires |vs| == |CompiledFields(g[t])| && FieldsSoFar(g, s0, s, CompiledFields(g[t]), infos, vs, env, m0, m, u)
    requires InfosOk(s, infos)
    requires EvalFields(g, depth, env0, Operands(g[t])) == FieldValues(vs, env)
    requires GenTag(g, path, s, t, named, |s0.stack|, infos).res.Done?
    ensures EvalNode(g, depth, env0, t).Computed?
    ensures var o := GenTag(g, path, s, t, named, |s0.stack|, infos); var w := EvalNode(g, depth, env0, t);
      var e := Leave(env0, w.env, t, named, w.words);
      Simulates(s0, o.st, e.env, m0, m', u, o.res.info, e.value, !named)
  {
    hide Valid, LivingTyped, Within, LivingHold, Reaches, Grows, PathNotLiving, EvalFields, Finish, Leave;
    hide EmitArith, EmitConcatenate, WritePlace, Simulates, GenBlock, GenIf, GenLabel, GenGoto, Gen, Eval, TypeOf,
      Denote, FieldsTyped, Extends;
    assert FieldsRel(s, m, u, infos, vs) && CurOk(s);
    match g[t] {
      case Imv(ty, ws) =>
        assert WellFormedNode(g[t]);
        m' := EndTag(path, s0, s, t, named, Lit(ws), ty, env0, env, ws, m0, m, u);
      case Arith(op, _) =>
        ConditionIsWord(s, m, u, CompiledFields(g[t]), infos, vs);
        m' := SimulateArith(path, s0, s, t, named, op, infos, vs, env0, env, m0, m, u);
      case Concatenate(_, _) =>
        assert FieldRel(s, m, u, infos[0], vs[0]) && FieldRel(s, m, u, infos[1], vs[1]);
        m' := SimulateConcatenate(path, s0, s, t, named, infos[0], infos[1], vs[0], vs[1], env0, env, m0, m, u);
      case Store(_, _) =>
        assert FieldRel(s, m, u, infos[0], vs[0]) && FieldRel(s, m, u, infos[1], vs[1]);
        m' := SimulateStore(path, s0, s, t, named, infos[0], infos[1], vs[0], vs[1], env0, env, m0, m, u);
      case _ => m' := m; assert false;
    }
  }

  // ---------------------------------------------------------------- whole functions

  function Start(fuel: nat): Machine {
    Machine(0, 0, 0, map[], map[], fuel)
  }

  /** The machine stands at a return of these words. */
  ghost predicate Returning(p: Fn, u: Word, m: Machine, ws: seq<Word>) {
    && m.block < |p.blocks| && m.pc == |p.blocks[m.block].body|
    && p.blocks[m.block].term.Some? && p.blocks[m.block].term.value.Ret?
    && Val(m.regs, u, p.blocks[m.block].term.value.result) == Some(ws)
  }

  lemma EntryRel(g: Graph, fuel: nat, u: Word)
    requires WellFormed(g)
    ensures Valid(Entry()) && LivingTyped(g, Entry().objects) && Rel(Entry(), map[], Start(fuel), u)
  {
  }

  /** The return that ends a compilation gives back the value of the whole AST. */
  lemma AtReturn(s: St, s': St, env: Env, m: Machine, m': Machine, u: Word, info: Info, v: Value)
    requires Valid(s') && Simulates(s, s', env, m, m', u, info, v, true)
    ensures var fn := SetTerm(s', Ret(info.ir)).fn;
      Runs(fn, u, m, m') && Returning(fn, u, m', v.words)
    ensures m'.fuel == m.fuel && LivingHold(s'.objects, env, m', u)
  {
    hide LivingHold, Runs, Val;
    var fn := SetTerm(s', Ret(info.ir)).fn;
    assert Extends(s'.fn, fn);
    RunsExtend(s'.fn, fn, u, m, m');
  }

  /** The compiled function returns the value of the AST, whatever undefined words are, and at
      the return every living AST is where the compiler says it is, with the value it has
      after direct evaluation. */
  lemma CompilePreservesMeaning(g: Graph, t: Ptr, fuel: nat, u: Word) returns (depth: nat, m': Machine)
    requires WellFormed(g) && StraightLine(g) && t in g && CompileAst(g, t).Accepted?
    ensures Within(g, depth, t)
    ensures var fn := CompileAst(g, t).fn; var e := Eval(g, depth, map[], t, false);
      && e.Result?
      && Runs(fn, u, Start(fuel), m')
      && Returning(fn, u, m', e.value.words)
      && m'.fuel == fuel
      && LivingHold(Gen(g, {}, Entry(), t, false).st.objects, e.env, m', u)
  {
    hide Gen, LivingHold, StraightLine, Within, Eval, Valid, LivingTyped, Simulates, Returning, SetTerm;
    var s, m := Entry(), Start(fuel);
    var r := Gen(g, {}, s, t, false);
    EntryRel(g, fuel, u);
    CompileLoops(g, t);
    depth :| Within(g, depth, t);
    m' := Simulate(g, {}, s, t, false, depth, map[], m, u);
    var e := Eval(g, depth, map[], t, false);
    assert Valid(r.st) by { GenKeeps(g, {}, s, t, false); }
    AtReturn(s, r.st, e.env, m, m', u, r.res.info, e.value);
  }
}
