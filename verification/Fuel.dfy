/**
 Run-time fuel. A program is a table of compiled functions that call one another through
 `run_function`. Every run of such a program ends, within a bound that is linear in the
 starting fuel, and each backward jump and each nested call spends one unit.
 */
module Fuel {
  import opened Options
  import opened Words
  import opened IR
  import opened Ast
  import opened CodeGen
  import opened Layout

  /** A compiled function, with the order its blocks were placed in. */
  datatype Code = Code(fn: Fn, order: seq<nat>)

  /** Function pointers are non-zero words. */
  type Program = map<Word, Code>

  datatype Frame = Frame(callee: Word, m: Machine)

  /** The call stack, innermost last, and the fuel all of it shares. */
  datatype Sys = Sys(frames: seq<Frame>, fuel: nat)

  function Fresh(callee: Word): Frame {
    Frame(callee, Machine(0, 0, 0, map[], map[], 0))
  }

  // ---------------------------------------------------------------- running

  function CurrentCall(c: Code, m: Machine): Option<Instr> {
    if m.block < |c.fn.blocks| && m.pc < |c.fn.blocks[m.block].body| && c.fn.blocks[m.block].body[m.pc].Call?
    then Some(c.fn.blocks[m.block].body[m.pc]) else None
  }

  predicate AtReturn(fn: Fn, m: Machine) {
    && m.block < |fn.blocks| && m.pc == |fn.blocks[m.block].body|
    && fn.blocks[m.block].term.Some? && fn.blocks[m.block].term.value.Ret?
  }

  function Push(frames: seq<Frame>, f: Frame): seq<Frame> {
    frames + [f]
  }

  /** `run_null_parameter_function`: a null function or no fuel gives 0 without running
      anything; otherwise one unit of fuel is spent and the function is entered. */
  function EnterCall(p: Program, u: Word, s: Sys, f: Frame, i: Instr): Option<Sys>
    requires |s.frames| > 0 && i.Call?
  {
    var below := s.frames[..|s.frames| - 1];
    var callee := Word1(Val(f.m.regs, u, i.callee));
    if callee.None? then None
    else if callee.value == 0 || s.fuel == 0 then
      Some(s.(frames := Push(below, f.(m := SetReg(f.m, i.dst, [0])))))
    else if callee.value !in p then None
    else Some(Sys(Push(s.frames, Fresh(callee.value)), s.fuel - 1))
  }

  /** The caller gets one word for the returned object: 0 or a new dynamic object's address. */
  function LeaveCall(p: Program, s: Sys, answer: Word): Option<Sys> {
    if |s.frames| < 2 then None else
    var f := s.frames[|s.frames| - 2];
    if f.callee !in p then None else
    var i := CurrentCall(p[f.callee], f.m);
    if i.None? then None
    else Some(s.(frames := Push(s.frames[..|s.frames| - 2], f.(m := SetReg(f.m, i.value.dst, [answer])))))
  }

  /** One step of the program; `answer` is only used when a call returns. */
  function SysStep(p: Program, u: Word, s: Sys, answer: Word): Option<Sys> {
    if |s.frames| == 0 then None else
    var f := s.frames[|s.frames| - 1];
    if f.callee !in p then None else
    var c := p[f.callee];
    var i := CurrentCall(c, f.m);
    if i.Some? then EnterCall(p, u, s, f, i.value)
    else if AtReturn(c.fn, f.m) then LeaveCall(p, s, answer)
    else
      var m' := Step(c.fn, u, f.m.(fuel := s.fuel));
      if m'.None? then None
      else Some(Sys(Push(s.frames[..|s.frames| - 1], f.(m := m'.value.(fuel := 0))), m'.value.fuel))
  }

  /** A run of one step for each answer. */
  function SysRun(p: Program, u: Word, s: Sys, answers: seq<Word>): Option<Sys>
    decreases |answers|
  {
    if answers == [] then Some(s) else
    var s' := SysStep(p, u, s, answers[0]);
    if s'.None? then None else SysRun(p, u, s'.value, answers[1..])
  }

  // ---------------------------------------------------------------- well laid out programs

  ghost predicate CodeOk(c: Code, size: nat, width: nat) {
    && Ordered(c.fn.blocks, c.order)
    && |c.fn.blocks| > 0 && |c.order| <= size
    && forall b | b in c.fn.blocks :: |b.body| < width
  }

  ghost predicate ProgramOk(p: Program, size: nat, width: nat) {
    forall k | k in p :: CodeOk(p[k], size, width)
  }

  /** The place of a block in the order; past the end for blocks that were never placed. */
  ghost function Pos(order: seq<nat>, b: nat): (i: nat)
    ensures i <= |order|
    ensures i < |order| ==> order[i] == b
    ensures i == |order| <==> b !in order
    ensures forall j | 0 <= j < i :: order[j] != b
  {
    if order == [] then 0
    else if order[0] == b then 0
    else
      var r := Pos(order[1..], b);
      assert forall j | 1 <= j < r + 1 :: order[j] == order[1..][j - 1];
      r + 1
  }

  /** How much an activation can still run without going back. */
  ghost function FrameCost(c: Code, m: Machine, width: nat): int {
    if m.block < |c.fn.blocks| then
      (|c.order| - Pos(c.order, m.block)) * width + |c.fn.blocks[m.block].body| - m.pc
    else 0
  }

  ghost predicate FrameOk(p: Program, f: Frame) {
    f.callee in p && (f.m.block < |p[f.callee].fn.blocks| ==> f.m.pc <= |p[f.callee].fn.blocks[f.m.block].body|)
  }

  ghost predicate SysOk(p: Program, s: Sys) {
    FramesOk(p, s.frames)
  }

  ghost predicate FramesOk(p: Program, frames: seq<Frame>) {
    forall i | 0 <= i < |frames| :: FrameOk(p, frames[i])
  }

  ghost function Costs(p: Program, frames: seq<Frame>, width: nat): int
    requires FramesOk(p, frames)
  {
    if frames == [] then 0
    else
      var f := frames[|frames| - 1];
      assert FrameOk(p, f);
      Costs(p, frames[..|frames| - 1], width) + FrameCost(p[f.callee], f.m, width)
  }

  /** The bound of one activation. */
  function Whole(size: nat, width: nat): nat {
    size * width + width
  }

  /** What is left to run: the activations, and for each unit of fuel a whole activation. */
  ghost function Measure(p: Program, s: Sys, size: nat, width: nat): int
    requires SysOk(p, s)
  {
    s.fuel * (Whole(size, width) + 1) + Costs(p, s.frames, width)
  }

  lemma MulMonotone(a: int, b: int, w: nat)
    requires a <= b
    ensures a * w <= b * w
  {
  }

  lemma FrameCostBounds(c: Code, m: Machine, size: nat, width: nat)
    requires CodeOk(c, size, width) && m.block < |c.fn.blocks| && m.pc <= |c.fn.blocks[m.block].body|
    ensures 0 <= FrameCost(c, m, width) <= Whole(size, width)
  {
    var left := |c.order| - Pos(c.order, m.block);
    MulMonotone(0, left, width);
    MulMonotone(left, size, width);
    assert c.fn.blocks[m.block] in c.fn.blocks;
  }

  // ---------------------------------------------------------------- one step

  /** A jump, as opposed to an instruction, to a block placed no later than the current one. */
  ghost predicate GoesBack(c: Code, m: Machine, m': Machine) {
    m'.pc == 0 && Pos(c.order, m'.block) <= Pos(c.order, m.block)
  }

  lemma AheadIsLater(order: seq<nat>, i: nat, b: nat)
    requires i < |order| && Ahead(order, i, b) && forall j, k | 0 <= j < k < |order| :: order[j] != order[k]
    ensures Pos(order, order[i]) == i < Pos(order, b)
  {
  }

  lemma BackIsEarlier(order: seq<nat>, i: nat, b: nat)
    requires i < |order| && b in order[..i + 1] && forall j, k | 0 <= j < k < |order| :: order[j] != order[k]
    ensures Pos(order, b) <= i == Pos(order, order[i])
  {
    var k :| 0 <= k <= i && order[..i + 1][k] == b;
    assert order[k] == b;
  }

  /** The cost of an activation goes down with every step, unless it spends fuel by going back. */
  lemma StepCost(c: Code, u: Word, m: Machine, size: nat, width: nat)
    requires CodeOk(c, size, width) && m.block < |c.fn.blocks| && m.pc <= |c.fn.blocks[m.block].body|
    requires Step(c.fn, u, m).Some?
    ensures var m' := Step(c.fn, u, m).value;
      && (m'.block < |c.fn.blocks| ==> m'.pc <= |c.fn.blocks[m'.block].body|)
      && (if GoesBack(c, m, m') then m'.fuel == m.fuel - 1
          else m'.fuel == m.fuel && FrameCost(c, m', width) < FrameCost(c, m, width))
  {
    var b := c.fn.blocks[m.block];
    var m' := Step(c.fn, u, m).value;
    if m.pc < |b.body| {
      assert m'.block == m.block && m'.pc == m.pc + 1 && m'.fuel == m.fuel;
    } else {
      JumpCost(c, u, m, size, width);
    }
  }

  /** The start of a later block costs less than the end of this one. */
  lemma LaterCostsLess(c: Code, m: Machine, m': Machine, size: nat, width: nat)
    requires CodeOk(c, size, width) && m.block < |c.fn.blocks| && m.pc == |c.fn.blocks[m.block].body|
    requires m'.pc == 0 && Pos(c.order, m.block) < Pos(c.order, m'.block)
    ensures FrameCost(c, m', width) < FrameCost(c, m, width)
  {
    hide Ordered, Pos;
    var i, j := Pos(c.order, m.block), Pos(c.order, m'.block);
    MulMonotone(|c.order| - j + 1, |c.order| - i, width);
    assert (|c.order| - j + 1) * width == (|c.order| - j) * width + width;
    assert c.fn.blocks[m.block] in c.fn.blocks;
    if m'.block < |c.fn.blocks| {
      assert c.fn.blocks[m'.block] in c.fn.blocks;
    } else {
      MulMonotone(0, |c.order| - j, width);
    }
  }

  lemma JumpCost(c: Code, u: Word, m: Machine, size: nat, width: nat)
    requires CodeOk(c, size, width) && m.block < |c.fn.blocks| && m.pc == |c.fn.blocks[m.block].body|
    requires Step(c.fn, u, m).Some?
    ensures var m' := Step(c.fn, u, m).value;
      && m'.pc == 0
      && (if GoesBack(c, m, m') then m'.fuel == m.fuel - 1
          else m'.fuel == m.fuel && FrameCost(c, m', width) < FrameCost(c, m, width))
  {
    var b := c.fn.blocks[m.block];
    var m' := Step(c.fn, u, m).value;
    var i := Pos(c.order, m.block);
    assert m.block in c.order;
    assert EdgeOk(c.order, i, b.term.value);
    hide Pos, FrameCost;
    if b.term.value.SpendFuel? && m.fuel != 0 {
      BackIsEarlier(c.order, i, m'.block);
    } else {
      AheadIsLater(c.order, i, m'.block);
      LaterCostsLess(c, m, m', size, width);
    }
  }

  // ---------------------------------------------------------------- whole runs

  ghost function TopCost(p: Program, f: Frame, width: nat): int
    requires FrameOk(p, f)
  {
    FrameCost(p[f.callee], f.m, width)
  }

  lemma CostsPush(p: Program, frames: seq<Frame>, f: Frame, width: nat)
    requires FramesOk(p, frames) && FrameOk(p, f)
    ensures FramesOk(p, Push(frames, f))
    ensures Costs(p, Push(frames, f), width) == Costs(p, frames, width) + TopCost(p, f, width)
  {
    assert Push(frames, f)[..|frames|] == frames;
  }

  lemma CostsPop(p: Program, frames: seq<Frame>, width: nat)
    requires FramesOk(p, frames) && |frames| > 0
    ensures FramesOk(p, frames[..|frames| - 1]) && FrameOk(p, frames[|frames| - 1])
    ensures Costs(p, frames, width) == Costs(p, frames[..|frames| - 1], width) + TopCost(p, frames[|frames| - 1], width)
  {
  }

  lemma TopCostBounds(p: Program, f: Frame, size: nat, width: nat)
    requires ProgramOk(p, size, width) && FrameOk(p, f)
    ensures 0 <= TopCost(p, f, width) <= Whole(size, width)
  {
    var c := p[f.callee];
    MulMonotone(0, size, width);
    if f.m.block < |c.fn.blocks| { FrameCostBounds(c, f.m, size, width); }
  }

  lemma {:induction false} CostsNonNegative(p: Program, frames: seq<Frame>, size: nat, width: nat)
    requires ProgramOk(p, size, width) && FramesOk(p, frames)
    ensures Costs(p, frames, width) >= 0
    decreases |frames|
  {
    if frames != [] {
      CostsPop(p, frames, width);
      CostsNonNegative(p, frames[..|frames| - 1], size, width);
      TopCostBounds(p, frames[|frames| - 1], size, width);
    }
  }

  /** Fuel spent by a step: one unit for a nested call, and one for a backward jump. */
  ghost function Spends(p: Program, s: Sys, s': Sys): nat {
    if |s'.frames| > |s.frames| then 1
    else if |s'.frames| == |s.frames| && |s.frames| > 0 && s.frames[|s.frames| - 1].callee in p
         && GoesBack(p[s.frames[|s.frames| - 1].callee], s.frames[|s.frames| - 1].m,
              s'.frames[|s'.frames| - 1].m) then 1
    else 0
  }

  ghost predicate Progress(p: Program, s: Sys, s': Sys, size: nat, width: nat) {
    SysOk(p, s) && SysOk(p, s') && Measure(p, s', size, width) < Measure(p, s, size, width)
      && s'.fuel + Spends(p, s, s') == s.fuel
  }

  lemma SetRegCost(c: Code, m: Machine, dst: nat, ws: seq<Word>, size: nat, width: nat)
    requires CodeOk(c, size, width) && CurrentCall(c, m).Some?
    ensures FrameCost(c, SetReg(m, dst, ws), width) == FrameCost(c, m, width) - 1
    ensures SetReg(m, dst, ws).block < |c.fn.blocks| && SetReg(m, dst, ws).pc <= |c.fn.blocks[m.block].body|
  {
  }

  lemma FreshCost(p: Program, callee: Word, size: nat, width: nat)
    requires ProgramOk(p, size, width) && callee in p
    ensures FrameOk(p, Fresh(callee)) && TopCost(p, Fresh(callee), width) <= Whole(size, width)
  {
    TopCostBounds(p, Fresh(callee), size, width);
  }

  /** Calling null, or calling without fuel, gives the word 0 and runs nothing; any other call
      starts a frame on top of the others. */
  lemma EnterAnswers(p: Program, u: Word, s: Sys, f: Frame, i: Instr)
    requires |s.frames| > 0 && f == s.frames[|s.frames| - 1] && i.Call? && EnterCall(p, u, s, f, i).Some?
    ensures var s' := EnterCall(p, u, s, f, i).value; var n := |s.frames|;
      if Word1(Val(f.m.regs, u, i.callee)) == Some(0) || s.fuel == 0 then
        && s'.fuel == s.fuel && |s'.frames| == n && s'.frames[..n - 1] == s.frames[..n - 1]
        && Val(s'.frames[n - 1].m.regs, u, Reg(i.dst)) == Some([0])
      else s'.fuel == s.fuel - 1 && |s'.frames| == n + 1 && s'.frames[..n] == s.frames
  {
  }

  /** A frame after a call that gave 0. */
  lemma CallFrame(p: Program, f: Frame, dst: nat, size: nat, width: nat)
    requires ProgramOk(p, size, width) && FrameOk(p, f) && CurrentCall(p[f.callee], f.m).Some?
    ensures var f' := f.(m := SetReg(f.m, dst, [0]));
      FrameOk(p, f') && TopCost(p, f', width) == TopCost(p, f, width) - 1 && !GoesBack(p[f.callee], f.m, f'.m)
  {
    SetRegCost(p[f.callee], f.m, dst, [0], size, width);
    hide FrameCost;
  }

  lemma EnterProgress(p: Program, u: Word, s: Sys, size: nat, width: nat)
    requires ProgramOk(p, size, width) && SysOk(p, s) && |s.frames| > 0
    requires var f := s.frames[|s.frames| - 1];
      && f.callee in p && CurrentCall(p[f.callee], f.m).Some?
      && EnterCall(p, u, s, f, CurrentCall(p[f.callee], f.m).value).Some?
    ensures var f := s.frames[|s.frames| - 1];
      Progress(p, s, EnterCall(p, u, s, f, CurrentCall(p[f.callee], f.m).value).value, size, width)
  {
    var f := s.frames[|s.frames| - 1];
    var c := p[f.callee];
    var i := CurrentCall(c, f.m).value;
    var s' := EnterCall(p, u, s, f, i).value;
    hide Costs, TopCost, Whole, FrameCost, FrameOk, FramesOk, ProgramOk, CodeOk, CurrentCall, Push, GoesBack, SetReg,
      Val;
    var below := s.frames[..|s.frames| - 1];
    CostsPop(p, s.frames, width);
    var callee := Word1(Val(f.m.regs, u, i.callee)).value;
    if callee == 0 || s.fuel == 0 {
      CallFrame(p, f, i.dst, size, width);
      CostsPush(p, below, f.(m := SetReg(f.m, i.dst, [0])), width);
      PushLast(below, f.(m := SetReg(f.m, i.dst, [0])));
    } else {
      FreshCost(p, callee, size, width);
      CostsPush(p, s.frames, Fresh(callee), width);
      PushLast(s.frames, Fresh(callee));
      FuelUnit(s.fuel, Whole(size, width));
    }
  }

  lemma LeaveProgress(p: Program, s: Sys, answer: Word, size: nat, width: nat)
    requires ProgramOk(p, size, width) && SysOk(p, s) && |s.frames| > 0
    requires LeaveCall(p, s, answer).Some?
    ensures Progress(p, s, LeaveCall(p, s, answer).value, size, width)
  {
    var n := |s.frames|;
    var f := s.frames[n - 2];
    var i := CurrentCall(p[f.callee], f.m).value;
    CostsPop(p, s.frames, width);
    TopCostBounds(p, s.frames[n - 1], size, width);
    var below := s.frames[..n - 1];
    assert below[n - 2] == f && below[..n - 2] == s.frames[..n - 2];
    CostsPop(p, below, width);
    SetRegCost(p[f.callee], f.m, i.dst, [answer], size, width);
    CostsPush(p, s.frames[..n - 2], f.(m := SetReg(f.m, i.dst, [answer])), width);
  }

  lemma CostIgnoresFuel(c: Code, m: Machine, fuel: nat, width: nat)
    ensures FrameCost(c, m.(fuel := fuel), width) == FrameCost(c, m, width)
  {
  }

  lemma BackIgnoresFuel(c: Code, m: Machine, m': Machine, fuel: nat, fuel': nat)
    ensures GoesBack(c, m.(fuel := fuel), m') == GoesBack(c, m, m') == GoesBack(c, m, m'.(fuel := fuel'))
  {
  }

  /** A step inside the innermost activation. */
  lemma InnerFrame(p: Program, u: Word, f: Frame, fuel: nat, size: nat, width: nat)
    requires ProgramOk(p, size, width) && FrameOk(p, f)
    requires Step(p[f.callee].fn, u, f.m.(fuel := fuel)).Some?
    ensures var c := p[f.callee]; var m' := Step(c.fn, u, f.m.(fuel := fuel)).value; var f' := f.(m := m'.(fuel := 0));
      && FrameOk(p, f')
      && (if GoesBack(c, f.m, f'.m) then m'.fuel == fuel - 1
          else m'.fuel == fuel && TopCost(p, f', width) < TopCost(p, f, width))
  {
    var c := p[f.callee];
    var m := f.m.(fuel := fuel);
    hide Step, CodeOk, GoesBack, FrameCost;
    StepCost(c, u, m, size, width);
    var m' := Step(c.fn, u, m).value;
    CostIgnoresFuel(c, f.m, fuel, width);
    CostIgnoresFuel(c, m', 0, width);
    BackIgnoresFuel(c, f.m, m', fuel, 0);
  }

  lemma FuelUnit(fuel: nat, w: nat)
    requires fuel > 0
    ensures fuel * (w + 1) == (fuel - 1) * (w + 1) + w + 1
  {
  }

  lemma FrameInProgram(p: Program, f: Frame)
    requires FrameOk(p, f)
    ensures f.callee in p
  {
  }

  lemma PushLast(frames: seq<Frame>, f: Frame)
    ensures |Push(frames, f)| == |frames| + 1 && Push(frames, f)[|frames|] == f
  {
  }

  /** The measure goes down when the innermost activation goes on, or back for a unit of fuel. */
  lemma MeasureLess(fuel: nat, fuel': int, below: int, top: int, top': int, w: nat)
    requires 0 <= top && top' <= w && (if fuel' == fuel - 1 then true else fuel' == fuel && top' < top)
    ensures fuel' * (w + 1) + (below + top') < fuel * (w + 1) + (below + top)
  {
    if fuel' == fuel - 1 { assert fuel' * (w + 1) == fuel * (w + 1) - (w + 1); }
  }

  lemma InnerProgress(p: Program, u: Word, s: Sys, size: nat, width: nat)
    requires ProgramOk(p, size, width) && SysOk(p, s) && |s.frames| > 0
    requires var f := s.frames[|s.frames| - 1]; f.callee in p && Step(p[f.callee].fn, u, f.m.(fuel := s.fuel)).Some?
    ensures var f := s.frames[|s.frames| - 1];
      var m' := Step(p[f.callee].fn, u, f.m.(fuel := s.fuel)).value;
      Progress(p, s, Sys(Push(s.frames[..|s.frames| - 1], f.(m := m'.(fuel := 0))), m'.fuel), size, width)
  {
    var f := s.frames[|s.frames| - 1];
    var c := p[f.callee];
    var m' := Step(c.fn, u, f.m.(fuel := s.fuel)).value;
    var f' := f.(m := m'.(fuel := 0));
    var below := s.frames[..|s.frames| - 1];
    hide Step, GoesBack, TopCost, Costs, FrameOk, FramesOk, Whole, ProgramOk, Push, CodeOk, FrameCost;
    CostsPop(p, s.frames, width);
    InnerFrame(p, u, f, s.fuel, size, width);
    CostsPush(p, below, f', width);
    TopCostBounds(p, f, size, width);
    TopCostBounds(p, f', size, width);
    FrameInProgram(p, f);
    PushLast(below, f');
    MeasureLess(s.fuel, m'.fuel, Costs(p, below, width), TopCost(p, f, width), TopCost(p, f', width),
      Whole(size, width));
  }

  /** Every step makes progress, and accounts for the fuel it spends. */
  lemma StepProgress(p: Program, u: Word, s: Sys, answer: Word, size: nat, width: nat)
    requires ProgramOk(p, size, width) && SysOk(p, s) && SysStep(p, u, s, answer).Some?
    ensures Progress(p, s, SysStep(p, u, s, answer).value, size, width)
  {
    hide Progress, SysOk, ProgramOk, EnterCall, LeaveCall, Step;
    var f := s.frames[|s.frames| - 1];
    var c := p[f.callee];
    if CurrentCall(c, f.m).Some? {
      EnterProgress(p, u, s, size, width);
    } else if AtReturn(c.fn, f.m) {
      LeaveProgress(p, s, answer, size, width);
    } else {
      InnerProgress(p, u, s, size, width);
    }
  }

  /** Nested calls and backward jumps over a run. */
  ghost function TotalSpent(p: Program, u: Word, s: Sys, answers: seq<Word>): nat
    requires SysRun(p, u, s, answers).Some?
    decreases |answers|
  {
    if answers == [] then 0
    else
      var s' := SysStep(p, u, s, answers[0]).value;
      Spends(p, s, s') + TotalSpent(p, u, s', answers[1..])
  }

  /** A run is no longer than the measure of where it starts, and what it spends is exactly
      the fuel it uses up. */
  lemma {:induction false} RunBound(p: Program, u: Word, s: Sys, answers: seq<Word>, size: nat, width: nat)
    requires ProgramOk(p, size, width) && SysOk(p, s) && SysRun(p, u, s, answers).Some?
    ensures SysOk(p, s) && |answers| <= Measure(p, s, size, width)
    ensures SysRun(p, u, s, answers).value.fuel + TotalSpent(p, u, s, answers) == s.fuel
    decreases |answers|
  {
    hide SysStep, ProgramOk, Spends;
    if answers == [] {
      CostsNonNegative(p, s.frames, size, width);
      MulMonotone(0, s.fuel, Whole(size, width) + 1);
    } else {
      var s' := SysStep(p, u, s, answers[0]).value;
      StepProgress(p, u, s, answers[0], size, width);
      RunBound(p, u, s', answers[1..], size, width);
    }
  }

  // ---------------------------------------------------------------- compiled programs

  /** An AST to compile: a graph and the node to start at. */
  datatype Source = Source(g: Graph, t: Ptr)

  ghost predicate Compiles(src: Source) {
    WellFormed(src.g) && (src.t == 0 || src.t in src.g) && CompileAst(src.g, src.t).Accepted?
  }

  /** The code of an accepted AST. */
  ghost function Compile(src: Source): (c: Code)
    requires Compiles(src)
    ensures c.fn == CompileAst(src.g, src.t).fn
  {
    Code(CompileAst(src.g, src.t).fn, Gen(src.g, {}, Entry(), src.t, false).st.order)
  }

  ghost predicate CompiledCode(c: Code) {
    exists src: Source :: Compiles(src) && c == Compile(src)
  }

  /** Every function of the program is the code of some accepted AST. */
  ghost predicate Compiled(p: Program) {
    forall k | k in p :: CompiledCode(p[k])
  }

  /** Accepted code is laid out in order: its only way back is through the fuel check. */
  lemma CompiledIsOrdered(src: Source)
    requires Compiles(src)
    ensures Ordered(Compile(src).fn.blocks, Compile(src).order) && |Compile(src).fn.blocks| > 0
  {
    assert Fine(Entry());
    GenFine(src.g, {}, Entry(), src.t, false);
    var r := Gen(src.g, {}, Entry(), src.t, false);
    hide Gen;
    SetTermFine(r.st, Ret(r.res.info.ir));
  }

  /** All block bodies are shorter than some width. */
  lemma {:induction false} BodiesBounded(blocks: seq<Block>) returns (width: nat)
    ensures forall b | b in blocks :: |b.body| < width
  {
    if blocks == [] {
      width := 0;
    } else {
      var w := BodiesBounded(blocks[1..]);
      width := if |blocks[0].body| < w then w else |blocks[0].body| + 1;
      forall b | b in blocks ensures |b.body| < width {
        assert b == blocks[0] || b in blocks[1..];
      }
    }
  }

  lemma CodeIsBounded(c: Code) returns (size: nat, width: nat)
    requires CompiledCode(c)
    ensures CodeOk(c, size, width)
  {
    var src: Source :| Compiles(src) && c == Compile(src);
    CompiledIsOrdered(src);
    hide Ordered, Compile;
    size := |c.order|;
    width := BodiesBounded(c.fn.blocks);
  }

  lemma CodeOkMonotone(c: Code, size: nat, width: nat, size': nat, width': nat)
    requires CodeOk(c, size, width) && size <= size' && width <= width'
    ensures CodeOk(c, size', width')
  {
  }

  /** A compiled program has a bound on the number and length of its blocks. */
  lemma {:induction false} CompiledIsBounded(p: Program, done: set<Word>) returns (size: nat, width: nat)
    requires Compiled(p) && done <= p.Keys
    ensures forall k | k in done :: CodeOk(p[k], size, width)
    decreases done
  {
    hide CompiledCode, CodeOk;
    size, width := 0, 0;
    if done != {} {
      var k :| k in done;
      var s, w := CompiledIsBounded(p, done - {k});
      var s0, w0 := CodeIsBounded(p[k]);
      size := if s < s0 then s0 else s;
      width := if w < w0 then w0 else w;
      forall j | j in done ensures CodeOk(p[j], size, width) {
        if j == k { CodeOkMonotone(p[j], s0, w0, size, width); } else { CodeOkMonotone(p[j], s, w, size, width); }
      }
    }
  }

  /**
   Fuel bounds every run. For every program of compiled functions there is a constant such
   that from any starting function, with any fuel, any undefined word and any answers of its
   calls, a run has at most (fuel + 1) times that many steps, and its backward jumps and
   nested calls together with the fuel that remains add up to the starting fuel.
   */
  lemma FuelBoundsEveryRun(p: Program) returns (whole: nat)
    requires Compiled(p)
    ensures forall start: Word, fuel: nat, u: Word, answers: seq<Word> | start in p
      && SysRun(p, u, Sys([Fresh(start)], fuel), answers).Some? ::
      var s := Sys([Fresh(start)], fuel);
      |answers| <= (fuel + 1) * whole && SysRun(p, u, s, answers).value.fuel + TotalSpent(p, u, s, answers) == fuel
  {
    var size, width := CompiledIsBounded(p, p.Keys);
    whole := Whole(size, width) + 1;
    forall start: Word, fuel: nat, u: Word, answers: seq<Word> | start in p
      && SysRun(p, u, Sys([Fresh(start)], fuel), answers).Some?
      ensures var s := Sys([Fresh(start)], fuel);
        |answers| <= (fuel + 1) * whole && SysRun(p, u, s, answers).value.fuel + TotalSpent(p, u, s, answers) == fuel
    {
      RunFromStart(p, start, fuel, u, answers, size, width);
    }
  }

  lemma RunFromStart(p: Program, start: Word, fuel: nat, u: Word, answers: seq<Word>, size: nat, width: nat)
    requires ProgramOk(p, size, width) && start in p && SysRun(p, u, Sys([Fresh(start)], fuel), answers).Some?
    ensures var s := Sys([Fresh(start)], fuel);
      |answers| <= (fuel + 1) * (Whole(size, width) + 1)
        && SysRun(p, u, s, answers).value.fuel + TotalSpent(p, u, s, answers) == fuel
  {
    hide SysRun, TotalSpent, ProgramOk, FrameCost, Whole;
    var s := Sys([Fresh(start)], fuel);
    FreshCost(p, start, size, width);
    CostsPush(p, [], Fresh(start), width);
    assert Push([], Fresh(start)) == s.frames;
    RunBound(p, u, s, answers, size, width);
    assert (fuel + 1) * (Whole(size, width) + 1) == fuel * (Whole(size, width) + 1) + Whole(size, width) + 1;
  }
}
