/**
 The types of the heap as the cells of the table of unique types: while the collector marks,
 it clears the table and puts the marked types back, and this changes no word of the heap.
 */
module TypesInHeap {
  import opened Tags
  import opened Heap
  import opened Marking
  import opened Retention
  import Interning

  /** A type object is a tag and the types its fields point to. */
  function CellAt(mem: seq<nat>, a: nat): Interning.Cell {
    Interning.Cell(At(mem, a), Subtypes(mem, a))
  }

  function CellsOf(h: Heap, layout: Layout): Interning.Cells {
    map a | a in layout && layout[a] == Type :: CellAt(h.mem, a)
  }

  /** The cells hold all that the type objects hold. */
  lemma CellIsWords(mem: seq<nat>, mem': seq<nat>, a: nat)
    requires a > NEVER_REACHED && |mem'| == |mem| && HasFields(At(mem, a)) && a + Extent(mem, a, Type) <= |mem|
    ensures CellAt(mem', a) == CellAt(mem, a) <==> SameFrom(mem, mem', a, Extent(mem, a, Type))
  {
    if CellAt(mem', a) == CellAt(mem, a) {
      var n := Extent(mem, a, Type);
      if At(mem, a) == CON_VEC {
        assert |Subtypes(mem', a)| == |Subtypes(mem, a)|;
        forall x | a + 2 <= x < a + n ensures mem'[x] == mem[x] {
          assert Subtypes(mem', a)[x - a - 2] == Subtypes(mem, a)[x - a - 2];
        }
      } else {
        assert Subtypes(mem', a)[0] == Subtypes(mem, a)[0];
      }
    } else if SameFrom(mem, mem', a, Extent(mem, a, Type)) {
      SameTypeWords(mem, mem', a);
    }
  }

  /** Heaps with the same cells have the same words in all type objects, and conversely. */
  lemma CellsAreWords(h: Heap, h': Heap, layout: Layout)
    requires WellTyped(h, layout) && |h'.mem| == |h.mem|
    ensures CellsOf(h', layout) == CellsOf(h, layout) <==>
      forall a | a in layout && layout[a] == Type :: SameFrom(h.mem, h'.mem, a, Extent(h.mem, a, Type))
  {
    hide SameFrom, Extent, CellAt;
    forall a | a in layout && layout[a] == Type
      ensures CellsOf(h', layout)[a] == CellsOf(h, layout)[a] <==> SameFrom(h.mem, h'.mem, a, Extent(h.mem, a, Type))
    {
      TypeObject(h, layout, a);
      CellIsWords(h.mem, h'.mem, a);
    }
  }

  lemma TypeObject(h: Heap, layout: Layout, a: nat)
    requires WellTyped(h, layout) && a in layout && layout[a] == Type
    ensures a > NEVER_REACHED && HasFields(At(h.mem, a)) && a + Extent(h.mem, a, Type) <= |h.mem|
  {
    assert ObjectOk(h, layout, a, Type);
  }

  lemma CellsPlaced(h: Heap, layout: Layout)
    requires WellTyped(h, layout)
    ensures forall a | a in CellsOf(h, layout) :: NEVER_REACHED < a < |h.mem|
  {
    forall a | a in layout && layout[a] == Type ensures NEVER_REACHED < a < |h.mem| {
      TypeObject(h, layout, a);
      ExtentPositive(h, layout, a);
    }
  }

  /** Clearing the table during a collection, and putting the marked types back: only types
      that were there are entered, all marked ones are, and no word of a type changes. */
  method Reintern(h: Heap, layout: Layout, entries: set<nat>, marked: seq<nat>, ghost trees: seq<Interning.Tree>)
      returns (table: set<nat>, cells: Interning.Cells)
    requires WellTyped(h, layout) && Interning.TableOk(CellsOf(h, layout), entries) && |trees| == |marked|
    requires forall i | 0 <= i < |marked| ::
      marked[i] in entries && Interning.Denotes(CellsOf(h, layout), marked[i], trees[i])
    ensures table <= entries && forall i | 0 <= i < |marked| :: marked[i] in table
    ensures forall h': Heap | |h'.mem| == |h.mem| && CellsOf(h', layout) == cells ::
      forall a | a in layout && layout[a] == Type :: SameFrom(h.mem, h'.mem, a, Extent(h.mem, a, Type))
  {
    hide WellTyped, CellsOf, SameFrom, Extent, Interning.TableOk, Interning.Denotes;
    CellsPlaced(h, layout);
    var t := new Interning.TypeTable();
    t.heap, t.table, t.next := CellsOf(h, layout), entries, |h.mem| + NEVER_REACHED + 1;
    t.RebuildTable(marked, trees);
    table, cells := t.table, t.heap;
    forall h': Heap | |h'.mem| == |h.mem| && CellsOf(h', layout) == cells
      ensures forall a | a in layout && layout[a] == Type :: SameFrom(h.mem, h'.mem, a, Extent(h.mem, a, Type))
    {
      CellsAreWords(h, h', layout);
    }
  }
}
