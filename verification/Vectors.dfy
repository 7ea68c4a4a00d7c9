/**
 Growable vectors of words. A full vector is copied to a larger place when an element is
 pushed; the old place keeps what it held.
 */
module Vectors {
  /** How much room is reserved for a new vector of n elements. */
  function Reserved(n: nat): nat {
    3 + n + n / 2
  }

  class Svector {
    var size: nat
    const contents: array<nat>

    ghost predicate Valid()
      reads this
    {
      size <= contents.Length
    }

    ghost function Elements(): seq<nat>
      requires Valid()
      reads this, contents
    {
      contents[..size]
    }

    constructor (reserved: nat)
      ensures Valid() && fresh(contents) && contents.Length == reserved && size == 0
    {
      size := 0;
      contents := new nat[reserved](_ => 0);
    }

    /** `vector_load`: 0 when the offset is past the end. */
    method Load(offset: nat) returns (word: nat)
      requires Valid()
      ensures word == if offset < |Elements()| then Elements()[offset] else 0
    {
      if offset < size { return contents[offset]; }
      return 0;
    }
  }

  /** `vector_build`. */
  method VectorBuild(elements: seq<nat>) returns (v: Svector)
    ensures fresh(v) && fresh(v.contents) && v.Valid() && v.Elements() == elements
    ensures v.contents.Length == Reserved(|elements|) > |elements|
  {
    v := new Svector(Reserved(|elements|));
    v.size := |elements|;
    for x := 0 to |elements|
      invariant v.size == |elements| && v.contents[..x] == elements[..x]
    {
      v.contents[x] := elements[x];
    }
  }

  /** `pushback_int`: appends in place when there is room; otherwise the pointer moves to a
      larger copy, and the old vector is left as it was. There is always room afterwards.
      `copied` counts the words that were moved. */
  method PushbackInt(s: Svector, value: nat) returns (s': Svector, copied: nat)
    requires s.Valid()
    modifies s, s.contents
    ensures s'.Valid() && s'.Elements() == old(s.Elements()) + [value]
    ensures old(s.size) < s.contents.Length ==> s' == s && copied == 0
    ensures old(s.size) == s.contents.Length ==>
      && fresh(s') && fresh(s'.contents) && s.Valid() && s.Elements() == old(s.Elements())
      && copied == s.contents.Length && s'.contents.Length == Reserved(s.contents.Length)
  {
    s', copied := s, 0;
    if s.size == s.contents.Length {
      s' := VectorBuild(s.contents[..s.size]);
      copied := s.size;
    }
    s'.contents[s'.size] := value;
    s'.size := s'.size + 1;
  }

  /** Words moved and room reserved after n pushes onto an empty vector. */
  function Cost(n: nat): (nat, nat) {
    if n == 0 then (0, Reserved(0))
    else
      var (moved, room) := Cost(n - 1);
      if n - 1 == room then (moved + room, Reserved(room)) else (moved, room)
  }

  /** Pushing is amortized constant: at most three words moved for each push; and the room is
      at most three words more than half as much again as is used. */
  lemma {:induction false} AmortizedCost(n: nat)
    ensures Cost(n).0 <= 3 * n && Cost(n).0 <= 2 * Cost(n).1
    ensures n <= Cost(n).1 <= 3 + n + n / 2
  {
    if n > 0 { AmortizedCost(n - 1); }
  }

  /** Any number of pushes onto an empty vector append their values, and move at most three
      words for each push. */
  method PushAll(values: seq<nat>) returns (v: Svector, copied: nat)
    ensures fresh(v) && v.Valid() && v.Elements() == values
    ensures copied == Cost(|values|).0 <= 3 * |values|
  {
    v := VectorBuild([]);
    copied := 0;
    for i := 0 to |values|
      invariant fresh(v) && fresh(v.contents) && v.Valid() && v.Elements() == values[..i]
      invariant Cost(i) == (copied, v.contents.Length)
    {
      var moved;
      v, moved := PushbackInt(v, values[i]);
      copied := copied + moved;
      assert values[..i + 1] == values[..i] + [values[i]];
    }
    assert values[..|values|] == values;
    AmortizedCost(|values|);
  }
}
