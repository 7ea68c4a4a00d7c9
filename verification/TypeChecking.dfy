/**
 Fitting one type to another, and joining types. Types are interned, so that the pointer
 comparison of the source is equality here.
 */
module TypeChecking {
  import opened Tags
  import Ast

  datatype Type =
    | Null
    | Plain(tag: nat)
    | Of(tag: nat, sub: Type)
    | ConVec(components: seq<Type>)

  predicate Single(t: Type) {
    t.Plain? || t.Of?
  }

  /** A con_vec has at least two components, none of them null or a con_vec; what is pointed to
      is not null. */
  ghost predicate WellFormed(t: Type) {
    match t
    case Null => true
    case Plain(tag) => 0 < tag <= DOES_NOT_RETURN && !(VECTOR <= tag <= TEMP_POINTER)
    case Of(tag, sub) => VECTOR <= tag <= TEMP_POINTER && !sub.Null? && WellFormed(sub)
    case ConVec(cs) => |cs| >= 2 && forall i | 0 <= i < |cs| :: Single(cs[i]) && WellFormed(cs[i])
  }

  /** No part of the type is one of the tags that only occur inside functions. */
  ghost predicate Storable(t: Type) {
    match t
    case Null => true
    case Plain(tag) => tag < POINTER_TO_SOMETHING
    case Of(_, sub) => Storable(sub)
    case ConVec(cs) => forall i | 0 <= i < |cs| :: Storable(cs[i])
  }

  datatype Version = RVO | Reference

  /** `type_check_result`; Stops is the source's error. */
  datatype Verdict = Different | NewTooLarge | ExistingTooLarge | PerfectFit | Stops

  function Ver(t: Type): nat {
    match t
    case Plain(tag) => tag
    case Of(tag, _) => tag
    case _ => 0
  }

  // ---------------------------------------------------------------- type_check

  function TypeCheck(version: Version, existing: Type, slot: Type): Verdict
    decreases slot, 1
  {
    if existing.Null? && slot.Null? then PerfectFit
    else if slot.Null? then ExistingTooLarge
    else if existing.Null? then NewTooLarge
    else if existing == slot then PerfectFit
    else if existing == Plain(DOES_NOT_RETURN) then PerfectFit
    else if !existing.ConVec? then (if !slot.ConVec? then TypeCheckOnce(version, existing, slot) else Different)
    else if !slot.ConVec? then Different
    else
      var n, m := |existing.components|, |slot.components|;
      var best := if n > m then ExistingTooLarge else if n < m then NewTooLarge else PerfectFit;
      CheckComponents(version, existing.components, slot, 0, best)
  }

  /** The loop over the components both types have. */
  function CheckComponents(version: Version, existing: seq<Type>, slot: Type, i: nat, best: Verdict): Verdict
    requires slot.ConVec?
    decreases slot, 0, |existing| - i
  {
    if i >= |existing| || i >= |slot.components| then best
    else
      var v := TypeCheckOnce(version, existing[i], slot.components[i]);
      if v.Stops? then Stops
      else if !v.PerfectFit? then Different
      else CheckComponents(version, existing, slot, i + 1, best)
  }

  function TypeCheckOnce(version: Version, existing: Type, slot: Type): Verdict
    decreases slot, 0, 0
  {
    if existing == Plain(DOES_NOT_RETURN) || slot == Plain(DOES_NOT_RETURN) then Stops
    else if version.RVO? then
      var a, b := Ver(existing), Ver(slot);
      if b == VECTOR || b == FULL_POINTER || b == TEMP_POINTER then
        if a == b || (a == FULL_POINTER && b == TEMP_POINTER) then
          if existing.Of? && slot.Of? && TypeCheck(Reference, existing.sub, slot.sub).PerfectFit? then PerfectFit
          else IntegerCase(a, b)
        else Different
      else if b == INTEGER then IntegerCase(a, b)
      else if DYNAMIC <= b <= FUNCTION_POINTER then (if a == b then PerfectFit else Different)
      else if b == VECTOR_OF_SOMETHING || b == POINTER_TO_SOMETHING then Different
      else Stops
    else if Ver(slot) != Ver(existing) then Different
    else if existing.Of? && slot.Of? then
      (if TypeCheck(Reference, existing.sub, slot.sub).PerfectFit? then PerfectFit else Different)
    else if INTEGER <= Ver(slot) <= FUNCTION_POINTER then PerfectFit
    else if Ver(slot) == VECTOR_OF_SOMETHING || Ver(slot) == POINTER_TO_SOMETHING then Different
    else Stops
  }

  /** The case of an integer slot, which the pointer cases fall through to. */
  function IntegerCase(a: nat, b: nat): Verdict {
    if a == b || a == FULL_POINTER || a == TYPE_POINTER || a == FUNCTION_POINTER || a == AST_POINTER
      || a == TEMP_POINTER
    then PerfectFit else Different
  }

  // ---------------------------------------------------------------- references

  /** On storable types, a reference fits perfectly exactly when the types are equal. */
  lemma {:induction false} ReferenceIsEquality(a: Type, b: Type)
    requires WellFormed(a) && WellFormed(b) && Storable(a) && Storable(b)
    ensures TypeCheck(Reference, a, b) == PerfectFit <==> a == b
    decreases b, 1
  {
    if a.ConVec? && b.ConVec? && a != b {
      var n, m := |a.components|, |b.components|;
      ReferenceComponents(a.components, b, 0,
        if n > m then ExistingTooLarge else if n < m then NewTooLarge else PerfectFit);
      if n == m { assert a.components != b.components; }
    } else if !a.Null? && !b.Null? && a != b && !a.ConVec? && !b.ConVec? {
      ReferenceOnce(a, b);
    }
  }

  lemma {:induction false} ReferenceOnce(a: Type, b: Type)
    requires WellFormed(a) && WellFormed(b) && Storable(a) && Storable(b) && Single(a) && Single(b)
    ensures TypeCheckOnce(Reference, a, b) == if a == b then PerfectFit else Different
    decreases b, 0, 0
  {
    if a.Of? && b.Of? { ReferenceIsEquality(a.sub, b.sub); }
  }

  lemma {:induction false} ReferenceComponents(cs: seq<Type>, b: Type, i: nat, best: Verdict)
    requires b.ConVec? && WellFormed(b) && Storable(b) && i <= |cs|
    requires forall k | 0 <= k < |cs| :: Single(cs[k]) && WellFormed(cs[k]) && Storable(cs[k])
    ensures CheckComponents(Reference, cs, b, i, best) ==
      if forall k | i <= k < |cs| && k < |b.components| :: cs[k] == b.components[k] then best else Different
    decreases b, 0, |cs| - i
  {
    if i < |cs| && i < |b.components| {
      ReferenceOnce(cs[i], b.components[i]);
      ReferenceComponents(cs, b, i + 1, best);
    }
  }

  /** Of two con_vecs, a reference says which is a prefix of the other. */
  lemma ReferencePrefix(xs: seq<Type>, ys: seq<Type>)
    requires WellFormed(ConVec(xs)) && WellFormed(ConVec(ys)) && Storable(ConVec(xs)) && Storable(ConVec(ys))
    requires xs != ys
    ensures TypeCheck(Reference, ConVec(xs), ConVec(ys)) ==
      if ys < xs then ExistingTooLarge else if xs < ys then NewTooLarge else Different
  {
    var best := if |xs| > |ys| then ExistingTooLarge else if |xs| < |ys| then NewTooLarge else PerfectFit;
    ReferenceComponents(xs, ConVec(ys), 0, best);
  }

  // ---------------------------------------------------------------- return values

  /** Placing a value: the tags decide, and what a pointer points to is not compared. */
  lemma RvoIsByTag(a: Type, b: Type)
    requires WellFormed(a) && WellFormed(b) && Single(a) && Single(b) && Storable(a) && Storable(b)
    ensures TypeCheckOnce(RVO, a, b) ==
      if Ver(a) == Ver(b) || (Ver(a) == FULL_POINTER && Ver(b) == TEMP_POINTER)
         || (Ver(b) == INTEGER && Ver(a) != DYNAMIC && Ver(a) != VECTOR)
      then PerfectFit else Different
  {
  }

  /** A pointer to one type fits a slot for a pointer to another, which a reference does not. */
  lemma RvoIgnoresPointees(tag: nat, s: Type, t: Type)
    requires VECTOR <= tag <= TEMP_POINTER && WellFormed(s) && WellFormed(t) && Storable(s) && Storable(t) && !s.Null?
    requires !t.Null? && s != t
    ensures TypeCheck(RVO, Of(tag, s), Of(tag, t)) == PerfectFit
    ensures TypeCheck(Reference, Of(tag, s), Of(tag, t)) == Different
  {
    ReferenceIsEquality(s, t);
  }

  function ScalarTag(s: Ast.Scalar): nat {
    match s
    case Integer => INTEGER
    case DynamicObject => DYNAMIC
    case AstPointer => AST_POINTER
    case TypePointer => TYPE_POINTER
    case FunctionPointer => FUNCTION_POINTER
  }

  function Embed(ty: Ast.Ty): Type {
    if ty == [] then Null
    else if |ty| == 1 then Plain(ScalarTag(ty[0]))
    else ConVec(seq(|ty|, i requires 0 <= i < |ty| => Plain(ScalarTag(ty[i]))))
  }

  lemma {:induction false} FitComponents(a: Ast.Ty, b: Ast.Ty, cs: seq<Type>, slot: Type, i: nat)
    requires |a| > 1 && |a| == |b| == |cs| && slot.ConVec? && |slot.components| == |b| && i <= |a|
    requires forall k | 0 <= k < |a| :: cs[k] == Plain(ScalarTag(a[k])) && slot.components[k] == Plain(ScalarTag(b[k]))
    ensures CheckComponents(RVO, cs, slot, i, PerfectFit) == PerfectFit
      <==> forall k | i <= k < |a| :: Ast.ScalarFits(a[k], b[k])
    decreases |a| - i
  {
    if i < |a| { FitComponents(a, b, cs, slot, i + 1); }
  }

  /** The compiler's fragment: its test for fitting is this one. */
  lemma FitsIsTypeCheck(a: Ast.Ty, b: Ast.Ty)
    ensures TypeCheck(RVO, Embed(a), Embed(b)) == PerfectFit <==> Ast.Fits(a, b)
  {
    if |a| > 1 && |b| > 1 {
      var x, y := Embed(a), Embed(b);
      if |a| == |b| {
        if x == y {
          forall k | 0 <= k < |a| ensures a[k] == b[k] { assert x.components[k] == y.components[k]; }
        }
        FitComponents(a, b, x.components, y, 0);
      } else {
        NotPerfect(RVO, x.components, y, 0, if |a| > |b| then ExistingTooLarge else NewTooLarge);
        assert |x.components| != |y.components|;
      }
    }
  }

  lemma {:induction false} NotPerfect(version: Version, cs: seq<Type>, slot: Type, i: nat, best: Verdict)
    requires slot.ConVec? && best != PerfectFit
    ensures CheckComponents(version, cs, slot, i, best) != PerfectFit
    decreases |cs| - i
  {
    if i < |cs| && i < |slot.components| { NotPerfect(version, cs, slot, i + 1, best); }
  }

  // ---------------------------------------------------------------- concatenate_types

  /** The single types that a type consists of. */
  function Parts(t: Type): seq<Type> {
    match t
    case Null => []
    case ConVec(cs) => cs
    case _ => [t]
  }

  function Flatten(ts: seq<Type>): seq<Type> {
    if ts == [] then [] else Flatten(ts[..|ts| - 1]) + Parts(ts[|ts| - 1])
  }

  function FromParts(ps: seq<Type>): Type {
    if ps == [] then Null else if |ps| == 1 then ps[0] else ConVec(ps)
  }

  function Concatenate(ts: seq<Type>): Type {
    FromParts(Flatten(ts))
  }

  /** `concatenate_types`. */
  method ConcatenateTypes(components: seq<Type>) returns (t: Type)
    ensures t == Concatenate(components)
  {
    var trueComponents: seq<Type> := [];
    for i := 0 to |components|
      invariant trueComponents == Flatten(components[..i])
    {
      var x := components[i];
      assert components[..i + 1][..i] == components[..i];
      if x.Null? { continue; }
      if x.ConVec? {
        for k := 0 to |x.components|
          invariant trueComponents == Flatten(components[..i]) + x.components[..k]
        {
          trueComponents := trueComponents + [x.components[k]];
        }
        assert x.components[..|x.components|] == x.components;
      } else {
        trueComponents := trueComponents + [x];
      }
    }
    assert components[..|components|] == components;
    if |trueComponents| == 0 { return Null; }
    if |trueComponents| == 1 { return trueComponents[0]; }
    return ConVec(trueComponents);
  }

  ghost predicate AllWellFormed(ts: seq<Type>) {
    forall t | t in ts :: WellFormed(t)
  }

  ghost predicate Pieces(ps: seq<Type>) {
    forall p | p in ps :: Single(p) && WellFormed(p)
  }

  lemma {:induction false} FlattenPieces(ts: seq<Type>)
    requires AllWellFormed(ts)
    ensures Pieces(Flatten(ts))
  {
    if ts != [] {
      FlattenPieces(ts[..|ts| - 1]);
      var last := ts[|ts| - 1];
      assert WellFormed(last);
    }
  }

  /** Taking apart and putting together are inverse. */
  lemma PartsInverse(t: Type, ps: seq<Type>)
    requires WellFormed(t) && Pieces(ps)
    ensures FromParts(Parts(t)) == t && Parts(FromParts(ps)) == ps && WellFormed(FromParts(ps))
  {
    if |ps| >= 1 { assert ps[0] in ps; }
  }

  lemma {:induction false} FlattenAppend(ts: seq<Type>, us: seq<Type>)
    ensures Flatten(ts + us) == Flatten(ts) + Flatten(us)
    decreases |us|
  {
    if us == [] {
      assert ts + us == ts;
    } else {
      assert (ts + us)[..|ts + us| - 1] == ts + us[..|us| - 1];
      FlattenAppend(ts, us[..|us| - 1]);
    }
  }

  lemma FlattenOne(t: Type)
    ensures Flatten([t]) == Parts(t)
  {
    assert [t][..0] == [];
  }

  /** Joining groups that were joined before is joining everything: so joining is associative. */
  lemma ConcatenateNests(ts: seq<Type>, us: seq<Type>, vs: seq<Type>)
    requires AllWellFormed(ts) && AllWellFormed(us) && AllWellFormed(vs)
    ensures Concatenate(ts + [Concatenate(us)] + vs) == Concatenate(ts + us + vs)
  {
    hide Flatten, FromParts, AllWellFormed;
    FlattenPieces(us);
    PartsInverse(Null, Flatten(us));
    var x := [Concatenate(us)];
    FlattenOne(Concatenate(us));
    FlattenAppend(ts + x, vs);
    FlattenAppend(ts, x);
    FlattenAppend(ts + us, vs);
    FlattenAppend(ts, us);
  }

  /** Null is neutral, and a single argument is given back. */
  lemma ConcatenateNull(ts: seq<Type>, us: seq<Type>, t: Type)
    requires WellFormed(t)
    ensures Concatenate(ts + [Null] + us) == Concatenate(ts + us) && Concatenate([t]) == t
  {
    hide Flatten, FromParts;
    FlattenOne(Null);
    FlattenOne(t);
    assert Flatten(ts) + [] == Flatten(ts);
    FlattenAppend(ts + [Null], us);
    FlattenAppend(ts, [Null]);
    FlattenAppend(ts, us);
    PartsInverse(t, []);
  }

  /** The result has no nested con_vec, and none with less than two components. */
  lemma ConcatenateWellFormed(ts: seq<Type>)
    requires AllWellFormed(ts)
    ensures WellFormed(Concatenate(ts))
  {
    FlattenPieces(ts);
    PartsInverse(Null, Flatten(ts));
  }

  /** `get_size`. */
  function GetSize(t: Type): nat {
    match t
    case Null => 0
    case ConVec(cs) => |cs|
    case _ => if Ver(t) == DOES_NOT_RETURN then 0 else 1
  }

  function TotalSize(ts: seq<Type>): nat {
    if ts == [] then 0 else TotalSize(ts[..|ts| - 1]) + GetSize(ts[|ts| - 1])
  }

  lemma {:induction false} FlattenSize(ts: seq<Type>)
    ensures TotalSize(ts) <= |Flatten(ts)|
    ensures TotalSize(ts) == |Flatten(ts)| <==> Plain(DOES_NOT_RETURN) !in ts
    requires AllWellFormed(ts)
  {
    if ts != [] {
      var less, last := ts[..|ts| - 1], ts[|ts| - 1];
      FlattenSize(less);
      assert WellFormed(last);
      assert ts == less + [last];
    }
  }

  /** Sizes add up, unless "does not return", of size 0, becomes one of several components,
      which are counted as one word each. */
  lemma SizeAdds(ts: seq<Type>)
    requires AllWellFormed(ts)
    ensures GetSize(Concatenate(ts)) == TotalSize(ts) <==> Plain(DOES_NOT_RETURN) !in ts || |Flatten(ts)| == 1
  {
    FlattenSize(ts);
    FlattenPieces(ts);
    var ps := Flatten(ts);
    if |ps| == 1 {
      assert ps[0] in ps;
      OnePiece(ts);
    }
  }

  lemma {:induction false} OnePiece(ts: seq<Type>)
    requires AllWellFormed(ts) && |Flatten(ts)| == 1
    ensures TotalSize(ts) == GetSize(Flatten(ts)[0])
  {
    var less, last := ts[..|ts| - 1], ts[|ts| - 1];
    assert WellFormed(last);
    if last.Null? { OnePiece(less); } else { NoPieces(less); }
  }

  lemma {:induction false} NoPieces(ts: seq<Type>)
    requires AllWellFormed(ts) && Flatten(ts) == []
    ensures TotalSize(ts) == 0
  {
    if ts != [] {
      assert WellFormed(ts[|ts| - 1]);
      NoPieces(ts[..|ts| - 1]);
    }
  }
}
