/**
 The pool of compiled functions: one bit per slot says whether it is taken, a second bitmap
 collects the slots a garbage collection finds alive, and the sweep finalizes the others.
 A function's address is represented by its number divided by 64 and modulo 64.
 */
module FunctionPool {
  import opened Options

  datatype Slot = Slot(block: nat, offset: bv7)

  predicate Bit(mask: bv64, k: bv7)
    requires k < 64
  {
    (mask >> k) & 1 == 1
  }

  /** The word with only bit k. */
  function Only(k: bv7): bv64
    requires k < 64
  {
    1 << k
  }

  /** The test `mask & bit`. */
  predicate Touches(mask: bv64, k: bv7)
    requires k < 64
  {
    mask & Only(k) != 0
  }

  /** The assignment `mask |= bit`. */
  function With(mask: bv64, k: bv7): bv64
    requires k < 64
  {
    mask | Only(k)
  }

  function Minus(a: bv64, b: bv64): bv64 {
    a - b
  }

  predicate SlotOk(flags: seq<bv64>, s: Slot) {
    s.block < |flags| && s.offset < 64
  }

  /** The slot's bit is set. */
  predicate Has(flags: seq<bv64>, s: Slot) {
    SlotOk(flags, s) && Bit(flags[s.block], s.offset)
  }

  /** Every slot of the one bitmap is in the other. */
  ghost predicate Within(marks: seq<bv64>, flags: seq<bv64>) {
    |marks| == |flags| && forall s | Has(marks, s) :: Has(flags, s)
  }

  lemma SetBit(mask: bv64, k: bv7, j: bv7)
    requires k < 64 && j < 64
    ensures Bit(With(mask, k), j) <==> j == k || Bit(mask, j)
  {
    hide Bit, Only;
    OrBit(mask, Only(k), j);
    OnlyBit(k, j);
  }

  lemma OrBit(a: bv64, b: bv64, j: bv7)
    requires j < 64
    ensures Bit(a | b, j) <==> Bit(a, j) || Bit(b, j)
  {
  }

  lemma OnlyBit(k: bv7, j: bv7)
    requires k < 64 && j < 64
    ensures Bit(Only(k), j) <==> j == k
  {
  }

  lemma TestBit(mask: bv64, k: bv7)
    requires k < 64
    ensures Touches(mask, k) <==> Bit(mask, k)
  {
  }

  lemma ExceptBits(a: bv64, b: bv64, k: bv7)
    requires k < 64
    ensures Bit(a & !b, k) <==> Bit(a, k) && !Bit(b, k)
  {
  }

  lemma SubtractionIsExcept(a: bv64, b: bv64)
    requires b & !a == 0
    ensures a - b == a & !b
  {
  }

  lemma ShiftByOne(x: bv64, k: bv7)
    requires k < 64
    ensures (x >> k) >> 1 == x >> (k + 1)
  {
  }

  lemma NoBitsStep(y: bv64)
    requires y & 1 != 1 && y >> 1 == 0
    ensures y == 0
  {
  }

  /** A mask without a bit is zero. */
  lemma NoBits(x: bv64)
    requires forall k: bv7 | k < 64 :: !Bit(x, k)
    ensures x == 0
  {
    var k: bv7 := 64;
    while k > 0
      invariant k <= 64 && x >> k == 0
      decreases k
    {
      k := k - 1;
      assert !Bit(x, k);
      ShiftByOne(x, k);
      NoBitsStep(x >> k);
    }
  }

  /** When the marks of a block are taken slots, the subtraction of the sweep borrows nothing:
      its bits are the set difference. */
  lemma DifferenceBits(a: bv64, b: bv64)
    requires forall k: bv7 | k < 64 :: Bit(b, k) ==> Bit(a, k)
    ensures forall k: bv7 | k < 64 :: Bit(Minus(a, b), k) <==> Bit(a, k) && !Bit(b, k)
  {
    var extra := b & !a;
    forall k: bv7 | k < 64 ensures !Bit(extra, k) { ExceptBits(b, a, k); }
    NoBits(extra);
    SubtractionIsExcept(a, b);
    forall k: bv7 | k < 64 ensures Bit(Minus(a, b), k) <==> Bit(a, k) && !Bit(b, k) { ExceptBits(a, b, k); }
  }

  lemma FullMask(mask: bv64)
    requires forall k: bv7 | k < 64 :: Bit(mask, k)
    ensures mask == 0xFFFF_FFFF_FFFF_FFFF
  {
    var zeros := !mask;
    forall k: bv7 | k < 64 ensures !Bit(zeros, k) { NegatedBit(mask, k); }
    NoBits(zeros);
  }

  lemma NegatedBit(mask: bv64, k: bv7)
    requires k < 64
    ensures Bit(!mask, k) <==> !Bit(mask, k)
  {
  }

  /** The lowest zero bit, as found by shifting. */
  method FirstZero(mask: bv64) returns (x: bv7)
    requires mask != 0xFFFF_FFFF_FFFF_FFFF
    ensures x < 64 && !Bit(mask, x) && forall j: bv7 | j < x :: Bit(mask, j)
  {
    x := 0;
    while x < 64
      invariant x <= 64
      invariant forall j: bv7 | j < x :: Bit(mask, j)
      decreases 64 - x
    {
      if (mask >> x) & 1 == 0 { return x; }
      OddOrEven(mask >> x);
      x := x + 1;
    }
    FullMask(mask);
    assert false;
  }

  lemma OddOrEven(y: bv64)
    ensures y & 1 == 0 || y & 1 == 1
  {
  }

  class FunctionPool {
    const flags: array<bv64>
    const sweepFlags: array<bv64>
    var firstPossibleEmpty: nat
    /** The slots whose function was destroyed, in order. */
    var finalized: seq<Slot>

    ghost predicate Valid()
      reads this
    {
      flags != sweepFlags && flags.Length == sweepFlags.Length && firstPossibleEmpty == 0
    }

    constructor (blocks: nat)
      ensures Valid() && fresh(flags) && fresh(sweepFlags) && flags.Length == blocks
      ensures forall s :: !Has(flags[..], s) && !Has(sweepFlags[..], s)
      ensures finalized == []
    {
      flags := new bv64[blocks](_ => 0);
      sweepFlags := new bv64[blocks](_ => 0);
      firstPossibleEmpty := 0;
      finalized := [];
      new;
    }

    /** Takes the first free slot; fails only when every slot is taken. */
    method AllocateFunction() returns (r: Option<Slot>)
      requires Valid()
      modifies flags
      ensures Valid()
      ensures r.None? ==> flags[..] == old(flags[..]) && forall s | SlotOk(flags[..], s) :: Has(flags[..], s)
      ensures r.Some? ==> SlotOk(flags[..], r.value) && !old(Has(flags[..], r.value))
      ensures r.Some? ==> forall s :: Has(flags[..], s) <==> s == r.value || old(Has(flags[..], s))
      ensures r.Some? ==> forall s | SlotOk(flags[..], s) ::
        s.block < r.value.block || (s.block == r.value.block && s.offset < r.value.offset) ==> Has(flags[..], s)
    {
      hide Bit, Touches, With, Minus;
      var x := firstPossibleEmpty;
      while x < flags.Length
        invariant x <= flags.Length
        invariant flags[..] == old(flags[..])
        invariant forall s: Slot | s.block < x && s.offset < 64 :: Has(flags[..], s)
      {
        var mask := flags[x];
        if mask != 0xFFFF_FFFF_FFFF_FFFF {
          var offset := FirstZero(mask);
          flags[x] := With(mask, offset);
          forall s: Slot ensures Has(flags[..], s) <==> s == Slot(x, offset) || old(Has(flags[..], s)) {
            if s.block == x && s.offset < 64 { SetBit(mask, offset, s.offset); }
          }
          return Some(Slot(x, offset));
        }
        forall s: Slot | s.block == x && s.offset < 64 ensures Has(flags[..], s) { AllBits(s.offset); }
        x := x + 1;
      }
      return None;
    }

    /** Marks a function; true when it was marked before. */
    method FoundFunction(s: Slot) returns (already: bool)
      requires Valid() && SlotOk(sweepFlags[..], s)
      modifies sweepFlags
      ensures already <==> old(Has(sweepFlags[..], s))
      ensures forall z :: Has(sweepFlags[..], z) <==> z == s || old(Has(sweepFlags[..], z))
      ensures already ==> sweepFlags[..] == old(sweepFlags[..])
    {
      hide Bit, Touches, With, Minus;
      var mask := sweepFlags[s.block];
      TestBit(mask, s.offset);
      if Touches(mask, s.offset) { return true; }
      sweepFlags[s.block] := With(mask, s.offset);
      forall z: Slot ensures Has(sweepFlags[..], z) <==> z == s || old(Has(sweepFlags[..], z)) {
        if z.block == s.block && z.offset < 64 { SetBit(mask, s.offset, z.offset); }
      }
      return false;
    }

    /** Fresh marks for a new collection. */
    method ClearMarks()
      requires Valid()
      modifies sweepFlags
      ensures forall s :: !Has(sweepFlags[..], s)
    {
      var x := 0;
      while x < sweepFlags.Length
        invariant 0 <= x <= sweepFlags.Length
        invariant forall i | 0 <= i < x :: sweepFlags[i] == 0
      {
        sweepFlags[x] := 0;
        x := x + 1;
      }
    }

    /** Runs the finalizer of every function in a block whose bit is set. */
    method FinalizeBlock(x: nat, difference: bv64, ghost before: seq<bv64>, ghost n: nat)
      requires Valid() && x < |before| && |before| == sweepFlags.Length && n <= |finalized|
      requires forall k: bv7 | k < 64 :: Bit(difference, k) <==> Bit(before[x], k) && !Bit(sweepFlags[x], k)
      requires DeadBelow(before, sweepFlags[..], finalized[n..], x, 0)
      modifies this`finalized
      ensures n <= |finalized| && old(finalized[..n]) == finalized[..n]
      ensures DeadBelow(before, sweepFlags[..], finalized[n..], x, 64)
    {
      hide Bit, Touches, DeadBelow;
      var offset: bv7 := 0;
      while offset < 64
        invariant offset <= 64 && n <= |finalized| && old(finalized[..n]) == finalized[..n]
        invariant DeadBelow(before, sweepFlags[..], finalized[n..], x, offset)
        decreases 64 - offset
      {
        TestBit(difference, offset);
        ghost var dead := finalized[n..];
        DeadNext(before, sweepFlags[..], dead, x, offset);
        if Touches(difference, offset) {
          finalized := finalized + [Slot(x, offset)];
          assert finalized[n..] == dead + [Slot(x, offset)];
        }
        offset := offset + 1;
      }
    }

    /** The part of the sweep that is about functions: every taken slot that is not marked is
        finalized, exactly once; the marked ones are what is taken afterwards. */
    method SweepFunctions()
      requires Valid() && Within(sweepFlags[..], flags[..])
      modifies this`finalized, this`firstPossibleEmpty, flags
      ensures Valid() && flags[..] == sweepFlags[..]
      ensures old(finalized) <= finalized
      ensures var dead := finalized[|old(finalized)|..];
        && (forall s :: s in dead <==> old(Has(flags[..], s)) && !Has(sweepFlags[..], s))
        && (forall i, j | 0 <= i < j < |dead| :: dead[i] != dead[j])
    {
      hide Bit, Touches, With, Minus;
      ghost var before := flags[..];
      ghost var n := |finalized|;
      var x := 0;
      while x < flags.Length
        invariant Valid() && 0 <= x <= flags.Length && n <= |finalized| && old(finalized) == finalized[..n]
        invariant flags[x..] == before[x..] && flags[..x] == sweepFlags[..x]
        invariant DeadBelow(before, sweepFlags[..], finalized[n..], x, 0)
      {
        var difference := Minus(flags[x], sweepFlags[x]);
        forall k: bv7 | k < 64 ensures Bit(sweepFlags[x], k) ==> Bit(flags[x], k) {
          assert Has(sweepFlags[..], Slot(x, k)) ==> Has(before, Slot(x, k));
        }
        DifferenceBits(flags[x], sweepFlags[x]);
        NoDifference(flags[x], sweepFlags[x]);
        if difference != 0 {
          FinalizeBlock(x, difference, before, n);
          flags[x] := sweepFlags[x];
        }
        x := x + 1;
      }
      firstPossibleEmpty := 0;
    }
  }

  lemma NoDifference(a: bv64, b: bv64)
    ensures Minus(a, b) == 0 ==> a == b
  {
  }

  lemma AllBits(k: bv7)
    requires k < 64
    ensures Bit(0xFFFF_FFFF_FFFF_FFFF, k)
  {
  }

  /** The finalized slots are the dead ones before (x, k), each once. */
  ghost predicate DeadBelow(before: seq<bv64>, marks: seq<bv64>, dead: seq<Slot>, x: nat, k: bv7) {
    && (forall s :: s in dead <==> (s.block < x || (s.block == x && s.offset < k)) && Has(before, s) && !Has(marks, s))
    && (forall i, j | 0 <= i < j < |dead| :: dead[i] != dead[j])
  }

  lemma DeadNext(before: seq<bv64>, marks: seq<bv64>, dead: seq<Slot>, x: nat, k: bv7)
    requires DeadBelow(before, marks, dead, x, k) && k < 64
    ensures var s := Slot(x, k);
      DeadBelow(before, marks, if Has(before, s) && !Has(marks, s) then dead + [s] else dead, x, k + 1)
  {
    hide Has;
    var s := Slot(x, k);
    assert s !in dead;
  }
}
