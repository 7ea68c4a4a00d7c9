/**
 The multimap of free blocks, ordered by size, and what taking memory from it does to the
 tiling of the pool.
 */
module FreeList {
  import opened Options

  datatype Region = Region(place: nat, size: nat)

  /** `lower_bound`: the first block of at least the given size. */
  function LowerBound(free: seq<Region>, size: nat): (i: nat)
    ensures i <= |free|
    ensures forall j | 0 <= j < i :: free[j].size < size
    ensures i < |free| ==> free[i].size >= size
  {
    if free == [] || free[0].size >= size then 0
    else
      var i := LowerBound(free[1..], size);
      assert forall j | 1 <= j < i + 1 :: free[j] == free[1..][j - 1];
      i + 1
  }

  /** Insertion in a multimap: after the blocks of the same size. */
  function Insert(free: seq<Region>, b: Region): seq<Region> {
    var i := LowerBound(free, b.size + 1);
    free[..i] + [b] + free[i..]
  }

  function Remove(free: seq<Region>, i: nat): seq<Region>
    requires i < |free|
  {
    free[..i] + free[i + 1..]
  }

  /** The free blocks after taking a number of words, and where they are; None is out of memory. */
  function Take(free: seq<Region>, size: nat): Option<(seq<Region>, nat)> {
    var i := LowerBound(free, size);
    if i == |free| then None
    else
      var rest := Remove(free, i);
      if free[i].size == size then Some((rest, free[i].place))
      else Some((Insert(rest, Region(free[i].place + size, free[i].size - size)), free[i].place))
  }

  function Sum(free: seq<Region>): nat {
    if free == [] then 0 else free[0].size + Sum(free[1..])
  }

  ghost predicate Sorted(free: seq<Region>) {
    forall i, j | 0 <= i <= j < |free| :: free[i].size <= free[j].size
  }

  // ---------------------------------------------------------------- tilings

  ghost predicate Inside(x: nat, b: Region) {
    b.place <= x < b.place + b.size
  }

  ghost predicate Apart(b: Region, c: Region) {
    b.place + b.size <= c.place || c.place + c.size <= b.place
  }

  /** Non-empty blocks that fill the words from lo to hi without overlap. */
  ghost predicate Tiles(blocks: set<Region>, lo: nat, hi: nat) {
    && (forall b | b in blocks :: lo <= b.place && b.size > 0 && b.place + b.size <= hi)
    && (forall b, c | b in blocks && c in blocks && b != c :: Apart(b, c))
    && (forall x: nat | lo <= x < hi :: Covered(x, blocks))
  }

  ghost predicate Covered(x: nat, blocks: set<Region>) {
    exists b :: b in blocks && Inside(x, b)
  }

  ghost predicate Distinct(free: seq<Region>) {
    forall i, j | 0 <= i < j < |free| :: free[i] != free[j]
  }

  ghost function Elements(free: seq<Region>): set<Region> {
    set b | b in free
  }

  /** The pool is tiled by the blocks in use and the free blocks; the free list is in order,
      without duplicates, and the count is its total. */
  ghost predicate PoolOk(free: seq<Region>, owned: set<Region>, count: int, lo: nat, hi: nat) {
    && Sorted(free) && Distinct(free) && Elements(free) !! owned
    && Tiles(Elements(free) + owned, lo, hi)
    && count == Sum(free)
  }

  // ---------------------------------------------------------------- the list

  lemma {:induction false} SumAppend(a: seq<Region>, b: seq<Region>)
    ensures Sum(a + b) == Sum(a) + Sum(b)
  {
    if a == [] {
      assert a + b == b;
    } else {
      SumAppend(a[1..], b);
      assert (a + b)[1..] == a[1..] + b;
    }
  }

  lemma InsertAt(free: seq<Region>, b: Region, i: nat)
    requires i == LowerBound(free, b.size + 1)
    ensures |Insert(free, b)| == |free| + 1
    ensures forall k {:trigger Insert(free, b)[k]} | 0 <= k < |free| + 1 ::
      Insert(free, b)[k] == if k < i then free[k] else if k == i then b else free[k - 1]
  {
  }

  lemma InsertSum(free: seq<Region>, b: Region)
    ensures Sum(Insert(free, b)) == Sum(free) + b.size
  {
    var i := LowerBound(free, b.size + 1);
    assert free == free[..i] + free[i..];
    SumAppend(free[..i], free[i..]);
    SumAppend(free[..i] + [b], free[i..]);
    SumAppend(free[..i], [b]);
  }

  lemma InsertElements(free: seq<Region>, b: Region)
    ensures Elements(Insert(free, b)) == Elements(free) + {b}
  {
    var i := LowerBound(free, b.size + 1);
    assert forall x :: x in free <==> x in free[..i] || x in free[i..];
  }

  lemma InsertOrder(free: seq<Region>, b: Region)
    requires Sorted(free)
    ensures Sorted(Insert(free, b))
    ensures Distinct(free) && b !in free ==> Distinct(Insert(free, b))
  {
    var i := LowerBound(free, b.size + 1);
    var more := Insert(free, b);
    InsertAt(free, b, i);
    hide Insert, Distinct;
    forall j, k | 0 <= j <= k < |more| ensures more[j].size <= more[k].size {
      assert more[j] == if j < i then free[j] else if j == i then b else free[j - 1];
      assert more[k] == if k < i then free[k] else if k == i then b else free[k - 1];
      if i < k { assert free[i].size <= free[k - 1].size; }
    }
    if Distinct(free) && b !in free { InsertDistinct(free, b, i); }
  }

  lemma InsertDistinct(free: seq<Region>, b: Region, i: nat)
    requires i == LowerBound(free, b.size + 1) && Distinct(free) && b !in free
    ensures Distinct(Insert(free, b))
  {
    var more := Insert(free, b);
    InsertAt(free, b, i);
    hide Insert;
    forall j, k | 0 <= j < k < |more| ensures more[j] != more[k] {
      assert more[j] == if j < i then free[j] else if j == i then b else free[j - 1];
      assert more[k] == if k < i then free[k] else if k == i then b else free[k - 1];
    }
  }

  lemma RemoveAt(free: seq<Region>, i: nat)
    requires i < |free|
    ensures |Remove(free, i)| == |free| - 1
    ensures forall k {:trigger Remove(free, i)[k]} | 0 <= k < |free| - 1 ::
      Remove(free, i)[k] == free[if k < i then k else k + 1]
  {
  }

  lemma SumOne(b: Region)
    ensures Sum([b]) == b.size
  {
  }

  lemma RemoveSum(free: seq<Region>, i: nat)
    requires i < |free|
    ensures Sum(free) == Sum(Remove(free, i)) + free[i].size
  {
    hide Sum;
    var l, r := free[..i], free[i + 1..];
    assert free == l + ([free[i]] + r);
    SumAppend(l, [free[i]] + r);
    SumAppend([free[i]], r);
    SumAppend(l, r);
    SumOne(free[i]);
  }

  lemma RemoveElements(free: seq<Region>, i: nat)
    requires Distinct(free) && i < |free|
    ensures Elements(Remove(free, i)) == Elements(free) - {free[i]}
    ensures forall x :: x in Remove(free, i) <==> x in free && x != free[i]
  {
    var less := Remove(free, i);
    RemoveAt(free, i);
    hide Remove;
    forall x | x in free && x != free[i] ensures x in less {
      var k :| 0 <= k < |free| && free[k] == x;
      assert less[if k < i then k else k - 1] == x;
    }
  }

  lemma RemoveOrder(free: seq<Region>, i: nat)
    requires Sorted(free) && Distinct(free) && i < |free|
    ensures Sorted(Remove(free, i)) && Distinct(Remove(free, i))
  {
    RemoveAt(free, i);
    hide Remove;
  }

  /** Replacing one block of a tiling by one or two that fill the same words. */
  lemma SplitTile(blocks: set<Region>, b: Region, size: nat, lo: nat, hi: nat)
    requires Tiles(blocks, lo, hi) && b in blocks && 0 < size <= b.size
    ensures Tiles(blocks - {b} + {Region(b.place, size)} + Rest(b, size), lo, hi)
  {
    var first, second := Region(b.place, size), Region(b.place + size, b.size - size);
    var more := blocks - {b} + {first} + Rest(b, size);
    forall x: nat | lo <= x < hi ensures Covered(x, more) {
      assert Covered(x, blocks);
      var c :| c in blocks && Inside(x, c);
      if c == b {
        assert Inside(x, if x < b.place + size then first else second);
      } else {
        assert c in more;
      }
    }
    forall c, d | c in more && d in more && c != d ensures Apart(c, d) {
      assert c in blocks - {b} ==> Apart(c, b);
      assert d in blocks - {b} ==> Apart(d, b);
    }
  }

  /** What remains free of a block from which some words were taken. */
  function Rest(b: Region, size: nat): set<Region>
    requires size <= b.size
  {
    if b.size == size then {} else {Region(b.place + size, b.size - size)}
  }

  /** The block that a request is served from: a smallest one that is large enough. */
  ghost predicate BestFit(free: seq<Region>, b: Region, size: nat) {
    b in free && size <= b.size && forall c | c in free && c.size >= size :: b.size <= c.size
  }

  /** Allocation takes the first words of a smallest block that is large enough; the rest of
      it stays free and every other block is left alone. It fails exactly when no free block
      is large enough. */
  lemma TakeKeepsTiling(free: seq<Region>, owned: set<Region>, count: int, lo: nat, hi: nat, size: nat)
      returns (b: Region)
    requires PoolOk(free, owned, count, lo, hi) && size > 0
    ensures Take(free, size).None? <==> forall c | c in free :: c.size < size
    ensures Take(free, size).Some? ==> BestFit(free, b, size) && Take(free, size).value.1 == b.place
    ensures Take(free, size).Some? ==> Elements(Take(free, size).value.0) == Elements(free) - {b} + Rest(b, size)
    ensures Take(free, size).Some? ==> Region(b.place, size) !in owned
    ensures Take(free, size).Some?
      ==> PoolOk(Take(free, size).value.0, owned + {Region(b.place, size)}, count - size, lo, hi)
  {
    var i := LowerBound(free, size);
    if i < |free| {
      b := free[i];
      TakeFound(free, owned, count, lo, hi, size, i);
    } else {
      assert forall c | c in free :: c.size < size;
      b := Region(0, 0);
    }
  }

  lemma TakeFound(free: seq<Region>, owned: set<Region>, count: int, lo: nat, hi: nat, size: nat, i: nat)
    requires PoolOk(free, owned, count, lo, hi) && size > 0 && i == LowerBound(free, size) < |free|
    ensures Take(free, size).Some? && Take(free, size).value.1 == free[i].place
    ensures BestFit(free, free[i], size)
    ensures Elements(Take(free, size).value.0) == Elements(free) - {free[i]} + Rest(free[i], size)
    ensures Region(free[i].place, size) !in owned
    ensures PoolOk(Take(free, size).value.0, owned + {Region(free[i].place, size)}, count - size, lo, hi)
  {
    hide Take, LowerBound, Insert, Remove, Sum, Sorted, Distinct, BestFit, Tiles, Rest;
    var b := free[i];
    var first := Region(b.place, size);
    var all := Elements(free) + owned;
    NewParts(all, b, size, lo, hi);
    TakeList(free, size, i);
    FirstIsBest(free, size, i);
    TakeUnfolds(free, size, i);
    SplitTile(all, b, size, lo, hi);
    var rest := Take(free, size).value.0;
    assert Elements(rest) !! (owned + {first});
    assert Elements(rest) + (owned + {first}) == all - {b} + {first} + Rest(b, size);
  }

  lemma TakeUnfolds(free: seq<Region>, size: nat, i: nat)
    requires i == LowerBound(free, size) < |free|
    ensures var b := free[i]; var less := Remove(free, i); var second := Region(b.place + size, b.size - size);
      && Take(free, size) == Some((if b.size == size then less else Insert(less, second), b.place))
      && Rest(b, size) == if b.size == size then {} else {second}
  {
    hide LowerBound, Insert, Remove;
  }

  lemma FirstIsBest(free: seq<Region>, size: nat, i: nat)
    requires Sorted(free) && i == LowerBound(free, size) < |free|
    ensures BestFit(free, free[i], size)
  {
    forall c | c in free && c.size >= size ensures free[i].size <= c.size {
      var k :| 0 <= k < |free| && free[k] == c;
    }
  }

  /** What taking memory does to the list of free blocks. */
  lemma TakeList(free: seq<Region>, size: nat, i: nat)
    requires Sorted(free) && Distinct(free) && 0 < size && i == LowerBound(free, size) < |free|
    requires forall c | c in Rest(free[i], size) :: c in free ==> c == free[i]
    ensures Take(free, size).Some?
    ensures Sorted(Take(free, size).value.0) && Distinct(Take(free, size).value.0)
    ensures Sum(Take(free, size).value.0) == Sum(free) - size
    ensures Elements(Take(free, size).value.0) == Elements(free) - {free[i]} + Rest(free[i], size)
  {
    hide *;
    var b, less := free[i], Remove(free, i);
    var second := Region(b.place + size, b.size - size);
    TakeUnfolds(free, size, i);
    RemoveSum(free, i);
    RemoveElements(free, i);
    RemoveOrder(free, i);
    if b.size > size {
      InsertSum(less, second);
      InsertElements(less, second);
      InsertOrder(less, second);
    }
  }

  /** The parts of a block are none of the other blocks of the tiling. */
  lemma NewParts(blocks: set<Region>, b: Region, size: nat, lo: nat, hi: nat)
    requires Tiles(blocks, lo, hi) && b in blocks && 0 < size <= b.size
    ensures forall c | c in blocks && c != b :: c != Region(b.place, size) && c !in Rest(b, size)
    ensures size < b.size ==> b !in Rest(b, size) && b != Region(b.place, size)
  {
    forall c | c in blocks && c != b ensures c != Region(b.place, size) && c !in Rest(b, size) {
      assert Apart(c, b);
    }
  }
}
