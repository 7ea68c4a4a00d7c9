/**
 Interned types. A type pointer is 0, the tag of a type without fields, or the address of a
 cell with a tag and subtypes. The table holds one pointer for each type that was interned;
 `get_unique_type_internal` rewrites its model in place and sometimes skips the lookup.
 */
module Interning {
  import opened Options
  import opened Tags

  datatype Cell = Cell(tag: nat, fields: seq<nat>)

  type Cells = map<nat, Cell>

  /** The structure of a type. */
  datatype Tree = Leaf(tag: nat) | Node(tag: nat, subs: seq<Tree>)

  predicate IsTag(t: nat) {
    0 < t < NEVER_REACHED && !HasFields(t)
  }

  /** The immediate contents of a type: a tag and the pointers in its fields. */
  function Shallow(heap: Cells, t: nat): Cell
    requires IsTag(t) || t in heap
  {
    if IsTag(t) then Cell(t, []) else heap[t]
  }

  ghost predicate Denotes(heap: Cells, t: nat, tree: Tree)
    decreases tree
  {
    match tree
    case Leaf(tag) => t == tag && IsTag(tag)
    case Node(tag, subs) =>
      && t > NEVER_REACHED && t in heap && heap[t].tag == tag && HasFields(tag) && |heap[t].fields| == |subs|
      && (if tag == CON_VEC then |subs| >= 2 else |subs| == 1)
      && forall i | 0 <= i < |subs| :: Denotes(heap, heap[t].fields[i], subs[i])
  }

  ghost function Size(tree: Tree): (n: nat)
    ensures n > 0
  {
    match tree
    case Leaf(_) => 1
    case Node(_, subs) => 1 + SizeAll(subs)
  }

  ghost function SizeAll(subs: seq<Tree>): nat {
    if subs == [] then 0 else Size(subs[0]) + SizeAll(subs[1..])
  }

  lemma {:induction false} SubSmaller(subs: seq<Tree>, i: nat)
    requires i < |subs|
    ensures Size(subs[i]) <= SizeAll(subs)
  {
    if i > 0 {
      assert subs[i] == subs[1..][i - 1];
      SubSmaller(subs[1..], i - 1);
    }
  }

  /** A pointer has at most one structure. */
  lemma {:induction false} DenotesOnce(heap: Cells, t: nat, a: Tree, b: Tree)
    requires Denotes(heap, t, a) && Denotes(heap, t, b)
    ensures a == b
    decreases a
  {
    if a.Node? && b.Node? {
      forall i | 0 <= i < |a.subs| ensures a.subs[i] == b.subs[i] {
        DenotesOnce(heap, heap[t].fields[i], a.subs[i], b.subs[i]);
      }
      assert a.subs == b.subs;
    }
  }

  // ---------------------------------------------------------------- the table

  ghost predicate Placed(heap: Cells, t: nat) {
    exists tree: Tree :: Denotes(heap, t, tree)
  }

  /** The table is closed under subtypes, and no two entries are equal field by field. */
  ghost predicate TableOk(heap: Cells, table: set<nat>) {
    && (forall t | t in table :: Placed(heap, t))
    && (forall t | t in table && t in heap && !IsTag(t) :: forall f | f in heap[t].fields :: f in table)
    && (forall t, u | t in table && u in table && t != u :: ShallowDiffers(heap, t, u))
  }

  ghost predicate ShallowDiffers(heap: Cells, t: nat, u: nat) {
    (IsTag(t) || t in heap) && (IsTag(u) || u in heap) ==> Shallow(heap, t) != Shallow(heap, u)
  }

  /** Some entry of the table has this structure. */
  ghost predicate Has(heap: Cells, table: set<nat>, tree: Tree) {
    exists t :: t in table && Denotes(heap, t, tree)
  }

  lemma PlacedIsThere(heap: Cells, t: nat)
    requires Placed(heap, t)
    ensures IsTag(t) || t in heap
    ensures IsTag(t) ==> t <= NEVER_REACHED
  {
    var tree: Tree :| Denotes(heap, t, tree);
  }

  /** Interning is canonical: entries with the same structure are the same pointer. */
  lemma {:induction false} Canonical(heap: Cells, table: set<nat>, t: nat, u: nat, tree: Tree)
    requires TableOk(heap, table) && t in table && u in table
    requires Denotes(heap, t, tree) && Denotes(heap, u, tree)
    ensures t == u
    decreases tree
  {
    if tree.Node? {
      var f, g := heap[t].fields, heap[u].fields;
      forall i | 0 <= i < |f| ensures f[i] == g[i] {
        assert f[i] in table && g[i] in table;
        Canonical(heap, table, f[i], g[i], tree.subs[i]);
      }
      assert f == g;
      assert heap[t] == heap[u];
      assert t != u ==> ShallowDiffers(heap, t, u);
    }
  }

  /** An entry's subtypes are entries. */
  lemma HasSubs(heap: Cells, table: set<nat>, tree: Tree, i: nat)
    requires TableOk(heap, table) && Has(heap, table, tree) && tree.Node? && i < |tree.subs|
    ensures Has(heap, table, tree.subs[i])
  {
    var t :| t in table && Denotes(heap, t, tree);
    assert heap[t].fields[i] in table;
  }

  /** A pointer whose fields are entries has the structure of an entry only if it equals that
      entry field by field. */
  lemma HasIsShallow(heap: Cells, table: set<nat>, model: nat, tree: Tree)
    requires TableOk(heap, table) && Denotes(heap, model, tree)
    requires model in heap && tree.Node? ==> forall f | f in heap[model].fields :: f in table
    ensures Has(heap, table, tree) <==> exists t ::
      t in table && (IsTag(t) || t in heap) && Shallow(heap, t) == Shallow(heap, model)
  {
    if t :| t in table && Denotes(heap, t, tree) {
      if tree.Node? {
        var f, g := heap[t].fields, heap[model].fields;
        forall i | 0 <= i < |f| ensures f[i] == g[i] {
          assert f[i] in table && g[i] in table;
          Canonical(heap, table, f[i], g[i], tree.subs[i]);
        }
        assert f == g;
      }
      assert Shallow(heap, t) == Shallow(heap, model);
    }
    if t :| t in table && (IsTag(t) || t in heap) && Shallow(heap, t) == Shallow(heap, model) {
      SameShallow(heap, t, model, tree) by { assert Placed(heap, t); }
    }
  }

  lemma SameShallow(heap: Cells, t: nat, model: nat, tree: Tree)
    requires Denotes(heap, model, tree) && Placed(heap, t) && (IsTag(t) || t in heap)
    requires Shallow(heap, t) == Shallow(heap, model)
    ensures Denotes(heap, t, tree)
  {
    var other: Tree :| Denotes(heap, t, other);
  }

  // ---------------------------------------------------------------- changes that keep structure

  /** Every pointer keeps its structure. */
  ghost predicate Keeps(heap: Cells, heap': Cells) {
    forall t: nat, tree: Tree | Denotes(heap, t, tree) :: Denotes(heap', t, tree)
  }

  function SetField(heap: Cells, m: nat, i: nat, r: nat): Cells
    requires m in heap && i < |heap[m].fields|
  {
    heap[m := heap[m].(fields := heap[m].fields[i := r])]
  }

  /** Rewriting a field to a pointer of the same structure. */
  lemma {:induction false} RewriteDenotes(heap: Cells, m: nat, i: nat, r: nat, sub: Tree, t: nat, tree: Tree)
    requires m in heap && i < |heap[m].fields|
    requires Denotes(heap, heap[m].fields[i], sub) && Denotes(heap, r, sub) && Denotes(heap, t, tree)
    ensures Denotes(SetField(heap, m, i, r), t, tree)
    decreases tree
  {
    if tree.Node? {
      var heap' := SetField(heap, m, i, r);
      forall k | 0 <= k < |tree.subs| ensures Denotes(heap', heap'[t].fields[k], tree.subs[k]) {
        if t == m && k == i {
          DenotesOnce(heap, heap[m].fields[i], sub, tree.subs[k]);
          RewriteDenotes(heap, m, i, r, sub, r, tree.subs[k]);
        } else {
          RewriteDenotes(heap, m, i, r, sub, heap[t].fields[k], tree.subs[k]);
        }
      }
    }
  }

  lemma RewriteKeeps(heap: Cells, m: nat, i: nat, r: nat, sub: Tree)
    requires m in heap && i < |heap[m].fields|
    requires Denotes(heap, heap[m].fields[i], sub) && Denotes(heap, r, sub)
    ensures Keeps(heap, SetField(heap, m, i, r))
  {
    forall t: nat, tree: Tree | Denotes(heap, t, tree) ensures Denotes(SetField(heap, m, i, r), t, tree) {
      RewriteDenotes(heap, m, i, r, sub, t, tree);
    }
  }

  /** A new cell. */
  lemma {:induction false} FreshDenotes(heap: Cells, a: nat, c: Cell, t: nat, tree: Tree)
    requires a !in heap && Denotes(heap, t, tree)
    ensures Denotes(heap[a := c], t, tree)
    decreases tree
  {
    if tree.Node? {
      forall k | 0 <= k < |tree.subs| ensures Denotes(heap[a := c], heap[t].fields[k], tree.subs[k]) {
        FreshDenotes(heap, a, c, heap[t].fields[k], tree.subs[k]);
      }
    }
  }

  lemma FreshKeeps(heap: Cells, a: nat, c: Cell)
    requires a !in heap
    ensures Keeps(heap, heap[a := c])
  {
    forall t: nat, tree: Tree | Denotes(heap, t, tree) ensures Denotes(heap[a := c], t, tree) {
      FreshDenotes(heap, a, c, t, tree);
    }
  }

  /** Entries keep their cells. */
  ghost predicate SameEntries(heap: Cells, heap': Cells, table: set<nat>) {
    forall t | t in table && t in heap :: t in heap' && heap'[t] == heap[t]
  }

  lemma TableOkKept(heap: Cells, heap': Cells, table: set<nat>)
    requires TableOk(heap, table) && Keeps(heap, heap') && SameEntries(heap, heap', table)
    ensures TableOk(heap', table)
    ensures forall tree: Tree | Has(heap, table, tree) :: Has(heap', table, tree)
  {
    forall t | t in table ensures Placed(heap', t) && (t in heap' && !IsTag(t) ==> t in heap && heap'[t] == heap[t]) {
      assert Placed(heap, t);
      var tree: Tree :| Denotes(heap, t, tree);
      assert Denotes(heap', t, tree);
    }
    forall t, u | t in table && u in table && t != u ensures ShallowDiffers(heap', t, u) {
      assert ShallowDiffers(heap, t, u);
      PlacedIsThere(heap, t) by { assert Placed(heap, t); }
      PlacedIsThere(heap, u) by { assert Placed(heap, u); }
    }
  }

  /** What the table has does not change while entries keep their cells. */
  lemma HasSame(heap: Cells, heap': Cells, table: set<nat>, tree: Tree)
    requires TableOk(heap, table) && Keeps(heap, heap') && Has(heap', table, tree)
    ensures Has(heap, table, tree)
  {
    var t :| t in table && Denotes(heap', t, tree);
    assert Placed(heap, t);
    var other: Tree :| Denotes(heap, t, other);
    DenotesOnce(heap', t, tree, other);
  }

  /** A type that is new to the table is inserted. */
  lemma InsertOk(heap: Cells, table: set<nat>, t: nat, tree: Tree)
    requires TableOk(heap, table) && Denotes(heap, t, tree) && !Has(heap, table, tree)
    requires t in heap && tree.Node? ==> forall f | f in heap[t].fields :: f in table
    ensures TableOk(heap, table + {t}) && Has(heap, table + {t}, tree)
  {
    assert Placed(heap, t);
    HasIsShallow(heap, table, t, tree);
    forall u | u in table && u != t ensures ShallowDiffers(heap, t, u) && ShallowDiffers(heap, u, t) {
      assert Placed(heap, u);
      PlacedIsThere(heap, u);
    }
  }

  /** Everything in the second table that is not in the first is smaller than a bound. */
  ghost predicate NewUpTo(heap: Cells, table: set<nat>, table': set<nat>, bound: int) {
    forall t | t in table' && t !in table :: exists tree: Tree :: Denotes(heap, t, tree) && Size(tree) <= bound
  }

  /** The shortcut is sound: if a subtype was new when it was looked at, no equal type is in
      the table afterwards, whatever smaller types were inserted in between. */
  lemma ShortcutSound(heap0: Cells, table0: set<nat>, heap: Cells, table: set<nat>, tree: Tree, i: nat)
    requires TableOk(heap0, table0) && TableOk(heap, table) && Keeps(heap0, heap)
    requires tree.Node? && i < |tree.subs| && !Has(heap0, table0, tree.subs[i])
    requires NewUpTo(heap, table0, table, Size(tree) - 1)
    ensures !Has(heap, table, tree)
  {
    if Has(heap, table, tree) {
      var t :| t in table && Denotes(heap, t, tree);
      if t in table0 {
        assert Has(heap, table0, tree);
        HasSame(heap0, heap, table0, tree);
        HasSubs(heap0, table0, tree, i);
      } else {
        var other: Tree :| Denotes(heap, t, other) && Size(other) <= Size(tree) - 1;
        DenotesOnce(heap, t, tree, other);
      }
    }
  }

  lemma HasBack(heap0: Cells, table0: set<nat>, heap: Cells, table: set<nat>, tree: Tree, bound: int)
    requires TableOk(heap0, table0) && Keeps(heap0, heap) && bound < Size(tree)
    requires NewUpTo(heap, table0, table, bound) && Has(heap, table, tree)
    ensures Has(heap0, table0, tree)
  {
    var t :| t in table && Denotes(heap, t, tree);
    if t in table0 {
      assert Has(heap, table0, tree);
      HasSame(heap0, heap, table0, tree);
    } else {
      var other: Tree :| Denotes(heap, t, other) && Size(other) <= bound;
      DenotesOnce(heap, t, tree, other);
    }
  }

  lemma HasForward(heap0: Cells, table0: set<nat>, heap: Cells, table: set<nat>, tree: Tree)
    requires Keeps(heap0, heap) && table0 <= table && Has(heap0, table0, tree)
    ensures Has(heap, table, tree)
  {
    var t :| t in table0 && Denotes(heap0, t, tree);
    assert Denotes(heap, t, tree);
  }

  /** Cells of types larger than a bound are untouched. */
  ghost predicate BiggerSame(heap: Cells, heap': Cells, bound: int) {
    forall t: nat, tree: Tree | Denotes(heap, t, tree) && Size(tree) > bound && t in heap ::
      t in heap' && heap'[t] == heap[t]
  }

  /** The type itself, or a subtype at any depth. */
  ghost predicate Part(sub: Tree, tree: Tree) {
    sub == tree || (tree.Node? && exists i :: 0 <= i < |tree.subs| && Part(sub, tree.subs[i]))
  }

  /** Everything in the second table that is not in the first is the type or a subtype of it. */
  ghost predicate NewParts(heap: Cells, table: set<nat>, table': set<nat>, tree: Tree) {
    forall t | t in table' && t !in table :: exists sub: Tree :: Denotes(heap, t, sub) && Part(sub, tree)
  }

  lemma NewPartsOfField(heap: Cells, table: set<nat>, table': set<nat>, tree: Tree, i: nat)
    requires tree.Node? && i < |tree.subs| && NewParts(heap, table, table', tree.subs[i])
    ensures NewParts(heap, table, table', tree)
  {
    forall t | t in table' && t !in table ensures exists sub: Tree :: Denotes(heap, t, sub) && Part(sub, tree) {
      var sub: Tree :| Denotes(heap, t, sub) && Part(sub, tree.subs[i]);
    }
  }

  lemma NewPartsTrans(h1: Cells, h2: Cells, t0: set<nat>, t1: set<nat>, t2: set<nat>, tree: Tree)
    requires NewParts(h1, t0, t1, tree) && NewParts(h2, t1, t2, tree) && Keeps(h1, h2)
    ensures NewParts(h2, t0, t2, tree)
  {
    forall t | t in t2 && t !in t0 ensures exists sub: Tree :: Denotes(h2, t, sub) && Part(sub, tree) {
      if t in t1 {
        var sub: Tree :| Denotes(h1, t, sub) && Part(sub, tree);
        assert Denotes(h2, t, sub);
      }
    }
  }

  lemma NewPartsSame(heap: Cells, table: set<nat>, tree: Tree)
    ensures NewParts(heap, table, table, tree)
  {
  }

  lemma NewPartsOne(heap: Cells, table: set<nat>, t: nat, tree: Tree)
    requires Denotes(heap, t, tree)
    ensures NewParts(heap, table, table + {t}, tree)
  {
    assert Part(tree, tree);
  }

  lemma EvolvesKeeps(h0: Cells, t0: set<nat>, n0: nat, h1: Cells, t1: set<nat>, n1: nat, e: int, c: int)
    requires Evolves(h0, t0, n0, h1, t1, n1, e, c)
    ensures Keeps(h0, h1)
  {
  }

  /** What interning a type may do: entries keep their cells and all pointers their structure,
      new entries are small, and large types are left alone. */
  ghost predicate Evolves(h0: Cells, t0: set<nat>, n0: nat, h1: Cells, t1: set<nat>, n1: nat, entries: int,
      cells: int)
  {
    && n0 <= n1 && t0 <= t1 && SameEntries(h0, h1, t0) && Keeps(h0, h1)
    && NewUpTo(h1, t0, t1, entries) && BiggerSame(h0, h1, cells)
  }

  lemma EvolvesRefl(h: Cells, t: set<nat>, n: nat, entries: int, cells: int)
    ensures Evolves(h, t, n, h, t, n, entries, cells)
  {
  }

  lemma EvolvesTrans(h0: Cells, t0: set<nat>, n0: nat, h1: Cells, t1: set<nat>, n1: nat, h2: Cells, t2: set<nat>,
      n2: nat, e: int, c: int, e': int, c': int)
    requires Evolves(h0, t0, n0, h1, t1, n1, e, c) && Evolves(h1, t1, n1, h2, t2, n2, e', c')
    requires e <= e' && c <= c'
    ensures Evolves(h0, t0, n0, h2, t2, n2, e', c')
  {
    forall t | t in t2 && t !in t0 ensures exists tree: Tree :: Denotes(h2, t, tree) && Size(tree) <= e' {
      if t in t1 {
        var tree: Tree :| Denotes(h1, t, tree) && Size(tree) <= e;
        assert Denotes(h2, t, tree);
      }
    }
    forall t: nat, tree: Tree | Denotes(h0, t, tree) && Size(tree) > c' && t in h0 ensures t in h2 && h2[t] == h0[t] {
      assert Denotes(h1, t, tree);
    }
  }

  lemma EvolvesWider(h0: Cells, t0: set<nat>, n0: nat, h1: Cells, t1: set<nat>, n1: nat, e: int, c: int, e': int,
      c': int)
    requires Evolves(h0, t0, n0, h1, t1, n1, e, c) && e <= e' && c <= c'
    ensures Evolves(h0, t0, n0, h1, t1, n1, e', c')
  {
    EvolvesRefl(h1, t1, n1, e', c');
    hide SameEntries, Keeps, NewUpTo, BiggerSame;
    EvolvesTrans(h0, t0, n0, h1, t1, n1, h1, t1, n1, e, c, e', c');
  }

  ghost predicate FieldsIn(heap: Cells, table: set<nat>, model: nat) {
    IsTag(model) || (model in heap && forall f | f in heap[model].fields :: f in table)
  }

  /** When the model's fields are entries: a type that is found changes nothing, an entry is
      found as itself, and a new type that may be kept is inserted without allocating. */
  ghost predicate Unchanged(h: Cells, t: set<nat>, n: nat, h': Cells, t': set<nat>, n': nat, model: nat, result: nat,
      created: bool, canReuse: bool)
  {
    && (!created ==> h' == h && t' == t && n' == n)
    && (model in t ==> !created && result == model)
    && (created && canReuse ==> h' == h && n' == n && result == model && t' == t + {model})
  }

  lemma DenotesThere(heap: Cells, t: nat, tree: Tree)
    requires Denotes(heap, t, tree)
    ensures IsTag(t) || t in heap
    ensures IsTag(t) <==> tree.Leaf?
    ensures IsTag(t) ==> t <= NEVER_REACHED
  {
  }

  lemma EntryFields(heap: Cells, table: set<nat>, t: nat)
    requires TableOk(heap, table) && t in table
    ensures FieldsIn(heap, table, t)
  {
    assert Placed(heap, t);
    PlacedIsThere(heap, t);
  }

  /** An entry that equals the model has its structure; it is the model if that is an entry. */
  lemma EntryFound(heap: Cells, table: set<nat>, model: nat, t: nat, tree: Tree)
    requires TableOk(heap, table) && Denotes(heap, model, tree) && t in table
    requires (IsTag(t) || t in heap) && (IsTag(model) || model in heap) && Shallow(heap, t) == Shallow(heap, model)
    ensures Denotes(heap, t, tree) && (model in table ==> t == model)
  {
    assert Placed(heap, t);
    SameShallow(heap, t, model, tree);
    if model in table { Canonical(heap, table, t, model, tree); }
  }

  lemma CopyDenotes(heap: Cells, a: nat, model: nat, tree: Tree)
    requires Denotes(heap, model, tree) && model in heap && !IsTag(model) && a !in heap && a > NEVER_REACHED
    ensures Denotes(heap[a := heap[model]], a, tree)
  {
    forall k | 0 <= k < |tree.subs| ensures Denotes(heap[a := heap[model]], heap[model].fields[k], tree.subs[k]) {
      FreshDenotes(heap, a, heap[model], heap[model].fields[k], tree.subs[k]);
    }
  }

  lemma NotEntry(heap: Cells, table: set<nat>, t: nat, tree: Tree)
    requires Denotes(heap, t, tree) && !Has(heap, table, tree)
    ensures t !in table
  {
  }

  lemma InsertEvolves(h0: Cells, n0: nat, h1: Cells, n1: nat, table: set<nat>, t: nat, tree: Tree)
    requires n0 <= n1 && SameEntries(h0, h1, table) && Keeps(h0, h1) && BiggerSame(h0, h1, Size(tree))
    requires Denotes(h1, t, tree)
    ensures Evolves(h0, table, n0, h1, table + {t}, n1, Size(tree), Size(tree))
  {
  }

  lemma FreshSame(heap: Cells, a: nat, c: Cell, table: set<nat>, bound: int)
    requires a !in heap
    ensures SameEntries(heap, heap[a := c], table) && BiggerSame(heap, heap[a := c], bound)
  {
  }

  /** Writing the unique version of a field into its type. */
  lemma WriteField(heap: Cells, table: set<nat>, next: nat, model: nat, i: nat, r: nat, tree: Tree)
    requires TableOk(heap, table) && Denotes(heap, model, tree) && tree.Node? && i < |tree.subs|
    requires r in table && Denotes(heap, r, tree.subs[i])
    ensures model in heap && i < |heap[model].fields|
    ensures var heap' := SetField(heap, model, i, r);
      && TableOk(heap', table) && Denotes(heap', model, tree)
      && Evolves(heap, table, next, heap', table, next, Size(tree) - 1, Size(tree))
      && (Has(heap', table, tree) ==> Has(heap, table, tree))
  {
    var heap', f := SetField(heap, model, i, r), heap[model].fields[i];
    RewriteKeeps(heap, model, i, r, tree.subs[i]);
    if model in table {
      assert f in table;
      Canonical(heap, table, f, r, tree.subs[i]);
      assert heap[model].fields[i := r] == heap[model].fields;
    }
    TableOkKept(heap, heap', table);
    if Has(heap', table, tree) { HasSame(heap, heap', table, tree); }
    forall t: nat, other: Tree | Denotes(heap, t, other) && Size(other) > Size(tree) && t in heap
      ensures heap'[t] == heap[t]
    {
      if t == model { DenotesOnce(heap, t, tree, other); }
    }
  }

  /** The new entries of a field's type are parts of the type, also after the field is written. */
  lemma NewPartsWritten(heap: Cells, table: set<nat>, table': set<nat>, next: nat, model: nat, i: nat, r: nat,
      tree: Tree)
    requires tree.Node? && i < |tree.subs| && model in heap && i < |heap[model].fields|
    requires NewParts(heap, table, table', tree.subs[i])
    requires Evolves(heap, table', next, SetField(heap, model, i, r), table', next, Size(tree) - 1, Size(tree))
    ensures NewParts(SetField(heap, model, i, r), table, table', tree)
  {
    var heap' := SetField(heap, model, i, r);
    NewPartsOfField(heap, table, table', tree, i);
    EvolvesKeeps(heap, table', next, heap', table', next, Size(tree) - 1, Size(tree));
    NewPartsSame(heap', table', tree);
    NewPartsTrans(heap, heap', table, table', table', tree);
  }

  lemma SubSize(tree: Tree, i: nat)
    requires tree.Node? && i < |tree.subs|
    ensures Size(tree.subs[i]) <= Size(tree) - 1
  {
    SubSmaller(tree.subs, i);
  }

  /** After a field's type was interned: the model's own cell is as it was, and the model is
      not in the table if it was not before, or if the field's type was new. */
  lemma FieldInterned(h0: Cells, t0: set<nat>, n0: nat, h1: Cells, t1: set<nat>, n1: nat, model: nat, i: nat,
      tree: Tree, created: bool)
    requires TableOk(h0, t0) && TableOk(h1, t1) && Denotes(h0, model, tree) && tree.Node? && i < |tree.subs|
    requires model in h0
    requires Evolves(h0, t0, n0, h1, t1, n1, Size(tree.subs[i]), Size(tree.subs[i]))
    requires created ==> !Has(h0, t0, tree.subs[i])
    ensures model in h1 && h1[model] == h0[model] && Denotes(h1, model, tree)
    ensures Evolves(h0, t0, n0, h1, t1, n1, Size(tree) - 1, Size(tree))
    ensures created || !Has(h0, t0, tree) ==> !Has(h1, t1, tree)
  {
    hide TableOk, Has, Size;
    SubSize(tree, i);
    EvolvesWider(h0, t0, n0, h1, t1, n1, Size(tree.subs[i]), Size(tree.subs[i]), Size(tree) - 1, Size(tree));
    if created { ShortcutSound(h0, t0, h1, t1, tree, i); }
    if Has(h1, t1, tree) { HasBack(h0, t0, h1, t1, tree, Size(tree) - 1); }
  }

  // ---------------------------------------------------------------- the interner

  class TypeTable {
    var heap: Cells
    var table: set<nat>
    /** All addresses from here on are unused. */
    var next: nat

    ghost predicate Valid()
      reads this
    {
      && NEVER_REACHED < next && (forall a | a in heap :: NEVER_REACHED < a < next)
      && TableOk(heap, table)
    }

    constructor ()
      ensures Valid() && table == {} && heap == map[]
    {
      heap, table, next := map[], {}, NEVER_REACHED + 1;
    }

    /** `type_hash_table.find`: an entry that equals the model field by field. */
    method Find(model: nat) returns (r: Option<nat>)
      requires Valid() && (IsTag(model) || model in heap)
      ensures r.None? <==> forall t | t in table :: (IsTag(t) || t in heap) ==> Shallow(heap, t) != Shallow(heap, model)
      ensures r.Some? ==>
        r.value in table && (IsTag(r.value) || r.value in heap) && Shallow(heap, r.value) == Shallow(heap, model)
    {
      hide ShallowDiffers;
      var rest := table;
      while rest != {}
        invariant rest <= table
        invariant forall t | t in table && t !in rest ::
          (IsTag(t) || t in heap) ==> Shallow(heap, t) != Shallow(heap, model)
      {
        var t :| t in rest;
        assert Placed(heap, t);
        PlacedIsThere(heap, t);
        var equal := EqualCells(Shallow(heap, t), Shallow(heap, model));
        if equal { return Some(t); }
        rest := rest - {t};
      }
      return None;
    }

    /** `copy_type`: a type without fields is its own copy. */
    method CopyType(t: nat) returns (copy: nat)
      requires Valid() && (IsTag(t) || t in heap)
      modifies this`heap, this`next
      ensures Valid() && old(next) <= next && Keeps(old(heap), heap)
      ensures IsTag(t) ==> copy == t && heap == old(heap) && next == old(next)
      ensures !IsTag(t) ==> copy == old(next) && next == copy + 1 && heap == old(heap)[copy := old(heap)[t]]
    {
      if IsTag(t) { return t; }
      FreshKeeps(heap, next, heap[t]);
      TableOkKept(heap, heap[next := heap[t]], table);
      copy := next;
      heap := heap[copy := heap[t]];
      next := next + 1;
    }

    /** Looks the model up, or else inserts it, or a copy if it cannot be kept. */
    method Lookup(model: nat, canReuse: bool, ghost tree: Tree) returns (result: nat, created: bool)
      requires Valid() && Denotes(heap, model, tree) && FieldsIn(heap, table, model)
      modifies this
      ensures Valid() && Evolves(old(heap), old(table), old(next), heap, table, next, Size(tree), Size(tree))
      ensures NewParts(heap, old(table), table, tree)
      ensures result in table && Denotes(heap, result, tree)
      ensures created <==> !Has(old(heap), old(table), tree)
      ensures Unchanged(old(heap), old(table), old(next), heap, table, next, model, result, created, canReuse)
    {
      hide TableOk, Keeps, SameEntries, NewUpTo, NewParts, Has, Size, BiggerSame, Denotes, Evolves;
      EvolvesRefl(heap, table, next, Size(tree), Size(tree));
      DenotesThere(heap, model, tree);
      HasIsShallow(heap, table, model, tree);
      var existing := Find(model);
      if existing.Some? {
        result, created := existing.value, false;
        EntryFound(heap, table, model, result, tree);
        NewPartsSame(heap, table, tree);
      } else {
        NotEntry(heap, table, model, tree);
        result := Adopt(model, !canReuse, tree);
        created := true;
      }
    }

    /** Inserts a new type, or a copy of it, whose fields are entries. */
    method Adopt(model: nat, copy: bool, ghost tree: Tree) returns (result: nat)
      requires Valid() && Denotes(heap, model, tree) && FieldsIn(heap, table, model) && !Has(heap, table, tree)
      modifies this
      ensures Valid() && Evolves(old(heap), old(table), old(next), heap, table, next, Size(tree), Size(tree))
      ensures NewParts(heap, old(table), table, tree)
      ensures result in table && Denotes(heap, result, tree)
      ensures !copy ==> heap == old(heap) && next == old(next) && result == model && table == old(table) + {model}
    {
      hide TableOk, Keeps, SameEntries, NewUpTo, NewParts, Has, Size, BiggerSame, Denotes, Evolves;
      DenotesThere(heap, model, tree);
      ghost var h0, n0 := heap, next;
      Same(heap, table, Size(tree));
      result := model;
      if copy {
        result := CopyType(model);
        if !IsTag(model) {
          FreshSame(h0, n0, h0[model], table, Size(tree));
          CopyDenotes(h0, n0, model, tree);
        }
        if Has(heap, table, tree) { HasSame(h0, heap, table, tree); }
      }
      InsertEvolves(h0, n0, heap, next, table, result, tree);
      InsertOk(heap, table, result, tree);
      NewPartsOne(heap, table, result, tree);
      table := table + {result};
    }

    /** Uniquefies one field of a type in place; true if it was new. */
    method UniquefyField(model: nat, i: nat, canReuse: bool, ghost tree: Tree) returns (created: bool)
      requires Valid() && Denotes(heap, model, tree) && tree.Node? && i < |tree.subs|
      requires model in heap && |heap[model].fields| == |tree.subs| && forall j | 0 <= j < i ::
        heap[model].fields[j] in table
      modifies this
      ensures Valid() && Denotes(heap, model, tree)
      ensures model in heap && |heap[model].fields| == |tree.subs| && forall j | 0 <= j <= i ::
        heap[model].fields[j] in table
      ensures Evolves(old(heap), old(table), old(next), heap, table, next, Size(tree) - 1, Size(tree))
      ensures NewParts(heap, old(table), table, tree)
      ensures created || !Has(old(heap), old(table), tree) ==> !Has(heap, table, tree)
      ensures FieldsIn(old(heap), old(table), model)
        ==> heap == old(heap) && table == old(table) && next == old(next) && !created
      decreases tree, 0
    {
      hide TableOk, Keeps, SameEntries, NewUpTo, NewParts, Has, Size, BiggerSame, Evolves;
      ghost var h0, t0, n0 := heap, table, next;
      var f := heap[model].fields[i];
      if f in table { EntryFields(heap, table, f); }
      var r;
      r, created := GetUnique(f, canReuse, tree.subs[i]);
      hide Denotes;
      ghost var h1, t1, n1 := heap, table, next;
      FieldInterned(h0, t0, n0, h1, t1, n1, model, i, tree, created);
      TablesGrow(h0, t0, n0, h1, t1, n1, Size(tree) - 1, Size(tree));
      WriteField(h1, t1, n1, model, i, r, tree);
      EvolvesTrans(h0, t0, n0, h1, t1, n1, SetField(h1, model, i, r), t1, n1, Size(tree) - 1, Size(tree),
        Size(tree) - 1, Size(tree));
      NewPartsWritten(h1, t0, t1, n1, model, i, r, tree);
      heap := SetField(heap, model, i, r);
      if FieldsIn(h0, t0, model) { SameField(h0, model, i); }
    }

    /** Uniquefies the fields of a type in place; true if one of them was new. */
    method UniquefyFields(model: nat, canReuse: bool, ghost tree: Tree) returns (createNewForSure: bool)
      requires Valid() && Denotes(heap, model, tree) && tree.Node?
      modifies this
      ensures Valid() && Denotes(heap, model, tree) && FieldsIn(heap, table, model)
      ensures Evolves(old(heap), old(table), old(next), heap, table, next, Size(tree) - 1, Size(tree))
      ensures NewParts(heap, old(table), table, tree)
      ensures createNewForSure ==> !Has(heap, table, tree)
      ensures FieldsIn(old(heap), old(table), model)
        ==> heap == old(heap) && table == old(table) && next == old(next) && !createNewForSure
      decreases tree, 1
    {
      assert model in heap && !IsTag(model) && |heap[model].fields| == |tree.subs|;
      hide TableOk, Keeps, SameEntries, NewUpTo, NewParts, Has, Size, BiggerSame, Evolves, Denotes;
      ghost var h0, t0, n0 := heap, table, next;
      createNewForSure := false;
      NewPartsSame(heap, table, tree);
      EvolvesRefl(heap, table, next, Size(tree) - 1, Size(tree));
      var counter := 0;
      while counter < |heap[model].fields|
        invariant Valid() && Denotes(heap, model, tree)
        invariant model in heap && counter <= |heap[model].fields| == |tree.subs|
        invariant forall j | 0 <= j < counter :: heap[model].fields[j] in table
        invariant Evolves(h0, t0, n0, heap, table, next, Size(tree) - 1, Size(tree)) && NewParts(heap, t0, table, tree)
        invariant createNewForSure ==> !Has(heap, table, tree)
        invariant FieldsIn(h0, t0, model) ==> heap == h0 && table == t0 && next == n0 && !createNewForSure
        decreases |tree.subs| - counter
      {
        ghost var h1, t1, n1 := heap, table, next;
        var created := UniquefyField(model, counter, canReuse, tree);
        createNewForSure := createNewForSure || created;
        EvolvesKeeps(h1, t1, n1, heap, table, next, Size(tree) - 1, Size(tree));
        NewPartsTrans(h1, heap, t0, t1, table, tree);
        EvolvesTrans(h0, t0, n0, h1, t1, n1, heap, table, next, Size(tree) - 1, Size(tree), Size(tree) - 1, Size(tree));
        counter := counter + 1;
      }
    }

    /** `get_unique_type_internal`. The structure of the model is passed as a ghost: it says
        that the model is finite and of well formed types. The flag says whether the type was
        created, which is when no type of the table had this structure. */
    method GetUnique(model: nat, canReuse: bool, ghost tree: Tree) returns (result: nat, created: bool)
      requires Valid() && Denotes(heap, model, tree)
      modifies this
      ensures Valid() && Evolves(old(heap), old(table), old(next), heap, table, next, Size(tree), Size(tree))
      ensures NewParts(heap, old(table), table, tree)
      ensures result in table && Denotes(heap, result, tree)
      ensures created <==> !Has(old(heap), old(table), tree)
      ensures FieldsIn(old(heap), old(table), model) ==>
        Unchanged(old(heap), old(table), old(next), heap, table, next, model, result, created, canReuse)
      decreases tree, 2
    {
      hide TableOk, Keeps, SameEntries, NewUpTo, NewParts, Has, Size, BiggerSame, Evolves, Denotes;
      DenotesThere(heap, model, tree);
      if IsTag(model) {
        result, created := Lookup(model, canReuse, tree);
      } else {
        ghost var h0, t0, n0 := heap, table, next;
        var createNewForSure := UniquefyFields(model, canReuse, tree);
        ghost var h1, t1, n1 := heap, table, next;
        FieldsDone(h0, t0, n0, h1, t1, n1, tree);
        if createNewForSure {
          result := Adopt(model, true, tree);
          created := true;
        } else {
          result, created := Lookup(model, canReuse, tree);
        }
        EvolvesTrans(h0, t0, n0, h1, t1, n1, heap, table, next, Size(tree) - 1, Size(tree), Size(tree), Size(tree));
        EvolvesKeeps(h1, t1, n1, heap, table, next, Size(tree), Size(tree));
        NewPartsTrans(h1, heap, t0, t1, table, tree);
      }
    }

    /** `uniquefy_premade_type`: null stays null. */
    method UniquefyPremadeType(model: nat, canReuse: bool, ghost tree: Tree) returns (result: nat)
      requires Valid() && (model != 0 ==> Denotes(heap, model, tree))
      modifies this
      ensures Valid() && (model == 0 ==> result == 0 && heap == old(heap) && table == old(table))
      ensures model != 0 ==> result in table && Denotes(heap, result, tree)
      ensures old(table) <= table && SameEntries(old(heap), heap, old(table)) && Keeps(old(heap), heap)
      ensures model != 0 ==> NewParts(heap, old(table), table, tree)
    {
      hide Keeps, SameEntries, Denotes, NewUpTo, NewParts;
      if model == 0 {
        KeepsRefl(heap, table);
        return 0;
      }
      var created;
      result, created := GetUnique(model, canReuse, tree);
    }

    /** Any sequence of calls: two results are the same pointer exactly when the types are
        structurally equal, and types that were in the table before are as they were. */
    method UniquefyAll(models: seq<nat>, reuse: seq<bool>, ghost trees: seq<Tree>) returns (results: seq<nat>)
      requires Valid() && |reuse| == |trees| == |models| && forall i | 0 <= i < |models| ::
        Denotes(heap, models[i], trees[i])
      modifies this
      ensures Valid() && |results| == |models|
      ensures forall i, j | 0 <= i < |models| && 0 <= j < |models| :: results[i] == results[j] <==> trees[i] == trees[j]
      ensures forall i | 0 <= i < |models| :: results[i] in table && Denotes(heap, results[i], trees[i])
      ensures old(table) <= table && SameEntries(old(heap), heap, old(table)) && Keeps(old(heap), heap)
    {
      hide Keeps, SameEntries, Denotes, TableOk;
      ghost var h0, t0 := heap, table;
      KeepsRefl(heap, table);
      results := [];
      for i := 0 to |models|
        invariant Valid() && |results| == i
        invariant t0 <= table && SameEntries(h0, heap, t0) && Keeps(h0, heap)
        invariant forall k | i <= k < |models| :: Denotes(heap, models[k], trees[k])
        invariant forall k | 0 <= k < i :: results[k] in table && Denotes(heap, results[k], trees[k])
      {
        ghost var h1, t1 := heap, table;
        TagsAreNotNull(heap, models[i], trees[i]);
        var r := UniquefyPremadeType(models[i], reuse[i], trees[i]);
        KeepsTrans(h0, h1, heap, t0, t1);
        forall k | 0 <= k < |models| ensures k < i ==> Denotes(heap, results[k], trees[k])
          ensures k >= i ==> Denotes(heap, models[k], trees[k])
        {
          if k < i { KeepsOne(h1, heap, results[k], trees[k]); } else { KeepsOne(h1, heap, models[k], trees[k]); }
        }
        results := results + [r];
      }
      forall i, j | 0 <= i < |models| && 0 <= j < |models| ensures results[i] == results[j] <==> trees[i] == trees[j] {
        PointerEquality(heap, table, results[i], results[j], trees[i], trees[j]);
      }
    }

    /** A type pointer that the collector marks: its fields first, then the type itself is put
        into the table that is being rebuilt. Nothing is allocated and no cell changes. The
        types whose fields are being marked are `open`; they are larger than this one. */
    method Remark(t: nat, visited: set<nat>, ghost tree: Tree, ghost entries: set<nat>, ghost open: set<nat>)
        returns (visited': set<nat>)
      requires Valid() && TableOk(heap, entries) && table <= entries && t in entries && Denotes(heap, t, tree)
      requires Settled(visited, table, open) && AllLarger(heap, open, Size(tree))
      modifies this
      ensures Valid() && heap == old(heap) && next == old(next)
      ensures old(table) <= table <= entries && t in table && visited <= visited'
      ensures Settled(visited', table, open)
      decreases tree
    {
      hide TableOk, Denotes, Size, Evolves, Keeps, AllLarger;
      DenotesThere(heap, t, tree);
      EntryFields(heap, entries, t);
      visited' := visited;
      if !IsTag(t) {
        if t in visited {
          NotOpen(heap, open, t, tree);
          return;
        }
        visited' := visited' + {t};
        ghost var h0 := heap;
        for i := 0 to |heap[t].fields|
          invariant Valid() && heap == h0 && next == old(next) && old(table) <= table <= entries
          invariant visited + {t} <= visited' && Settled(visited', table, open + {t})
          invariant forall j | 0 <= j < i :: heap[t].fields[j] in table
        {
          FieldDenotes(heap, t, i, tree);
          OpenMore(heap, open, t, tree, i);
          visited' := Remark(heap[t].fields[i], visited', tree.subs[i], entries, open + {t});
        }
      }
      var result, created := GetUnique(t, true, tree);
      Reinserted(heap, entries, table, t, result, tree);
    }

    /** The table is cleared and rebuilt from the types that are marked. */
    method RebuildTable(roots: seq<nat>, ghost trees: seq<Tree>)
      requires Valid() && |trees| == |roots|
      requires forall i | 0 <= i < |roots| :: roots[i] in table && Denotes(heap, roots[i], trees[i])
      modifies this
      ensures Valid() && heap == old(heap) && next == old(next)
      ensures table <= old(table) && forall i | 0 <= i < |roots| :: roots[i] in table
    {
      hide TableOk, Denotes;
      ghost var h0, entries := heap, table;
      table := {};
      EmptyTable(heap);
      var visited: set<nat> := {};
      for i := 0 to |roots|
        invariant Valid() && heap == h0 && next == old(next) && table <= entries
        invariant Settled(visited, table, {})
        invariant forall j | 0 <= j < i :: roots[j] in table
      {
        visited := Remark(roots[i], visited, trees[i], entries, {});
      }
    }
  }

  /** Pointer equality of entries is structural equality. */
  lemma PointerEquality(heap: Cells, table: set<nat>, t: nat, u: nat, a: Tree, b: Tree)
    requires TableOk(heap, table) && t in table && u in table && Denotes(heap, t, a) && Denotes(heap, u, b)
    ensures t == u <==> a == b
  {
    if t == u { DenotesOnce(heap, t, a, b); }
    if a == b { Canonical(heap, table, t, u, a); }
  }

  lemma KeepsOne(heap: Cells, heap': Cells, t: nat, tree: Tree)
    requires Keeps(heap, heap') && Denotes(heap, t, tree)
    ensures Denotes(heap', t, tree)
  {
  }

  lemma KeepsRefl(heap: Cells, table: set<nat>)
    ensures Keeps(heap, heap) && SameEntries(heap, heap, table)
  {
  }

  lemma KeepsTrans(h0: Cells, h1: Cells, h2: Cells, t0: set<nat>, t1: set<nat>)
    requires Keeps(h0, h1) && Keeps(h1, h2) && SameEntries(h0, h1, t0) && SameEntries(h1, h2, t1) && t0 <= t1
    ensures Keeps(h0, h2) && SameEntries(h0, h2, t0)
  {
  }

  lemma TagsAreNotNull(heap: Cells, t: nat, tree: Tree)
    requires Denotes(heap, t, tree)
    ensures t != 0
  {
  }

  lemma Same(heap: Cells, table: set<nat>, bound: int)
    ensures Keeps(heap, heap) && SameEntries(heap, heap, table) && BiggerSame(heap, heap, bound)
  {
  }

  lemma TablesGrow(h0: Cells, t0: set<nat>, n0: nat, h1: Cells, t1: set<nat>, n1: nat, e: int, c: int)
    requires Evolves(h0, t0, n0, h1, t1, n1, e, c)
    ensures t0 <= t1 && n0 <= n1
  {
  }

  lemma SameField(heap: Cells, model: nat, i: nat)
    requires model in heap && i < |heap[model].fields|
    ensures SetField(heap, model, i, heap[model].fields[i]) == heap
  {
    assert heap[model].fields[i := heap[model].fields[i]] == heap[model].fields;
  }

  lemma FieldsDone(h0: Cells, t0: set<nat>, n0: nat, h1: Cells, t1: set<nat>, n1: nat, tree: Tree)
    requires TableOk(h0, t0) && Evolves(h0, t0, n0, h1, t1, n1, Size(tree) - 1, Size(tree))
    ensures Has(h0, t0, tree) <==> Has(h1, t1, tree)
  {
    hide TableOk, Has, Size;
    if Has(h0, t0, tree) { HasForward(h0, t0, h1, t1, tree); }
    if Has(h1, t1, tree) { HasBack(h0, t0, h1, t1, tree, Size(tree) - 1); }
  }

  /** A visited type is in the table, unless its fields are still being marked. */
  ghost predicate Settled(visited: set<nat>, table: set<nat>, open: set<nat>) {
    forall v | v in visited :: v in table || v in open
  }

  ghost predicate AllLarger(heap: Cells, open: set<nat>, size: nat) {
    forall v | v in open :: exists tree: Tree :: Denotes(heap, v, tree) && Size(tree) > size
  }

  lemma NotOpen(heap: Cells, open: set<nat>, t: nat, tree: Tree)
    requires AllLarger(heap, open, Size(tree)) && Denotes(heap, t, tree)
    ensures t !in open
  {
    if t in open {
      var other: Tree :| Denotes(heap, t, other) && Size(other) > Size(tree);
      DenotesOnce(heap, t, tree, other);
    }
  }

  lemma FieldDenotes(heap: Cells, t: nat, i: nat, tree: Tree)
    requires Denotes(heap, t, tree) && t in heap && !IsTag(t) && i < |heap[t].fields|
    ensures tree.Node? && i < |tree.subs| && Denotes(heap, heap[t].fields[i], tree.subs[i])
  {
  }

  lemma OpenMore(heap: Cells, open: set<nat>, t: nat, tree: Tree, i: nat)
    requires AllLarger(heap, open, Size(tree)) && Denotes(heap, t, tree) && tree.Node? && i < |tree.subs|
    ensures AllLarger(heap, open + {t}, Size(tree.subs[i]))
  {
    SubSize(tree, i);
    forall v | v in open + {t}
      ensures exists other: Tree :: Denotes(heap, v, other) && Size(other) > Size(tree.subs[i])
    {
      if v in open {
        var other: Tree :| Denotes(heap, v, other) && Size(other) > Size(tree);
      }
    }
  }

  /** An entry that is looked up in a part of the table is found as itself. */
  lemma Reinserted(heap: Cells, entries: set<nat>, table: set<nat>, t: nat, result: nat, tree: Tree)
    requires TableOk(heap, entries) && t in entries && result in table && Denotes(heap, t, tree)
    requires Denotes(heap, result, tree)
    ensures result in entries ==> result == t
  {
    if result in entries { Canonical(heap, entries, t, result, tree); }
  }

  lemma EmptyTable(heap: Cells)
    ensures TableOk(heap, {})
  {
  }

  /** Equality of the table scans the fields. */
  method EqualCells(l: Cell, r: Cell) returns (equal: bool)
    ensures equal <==> l == r
  {
    if l.tag != r.tag || |l.fields| != |r.fields| { return false; }
    for x := 0 to |l.fields|
      invariant l.fields[..x] == r.fields[..x]
    {
      if l.fields[x] != r.fields[x] {
        assert l.fields != r.fields;
        return false;
      }
    }
    assert l.fields == l.fields[..|l.fields|] == r.fields[..|r.fields|] == r.fields;
    return true;
  }
}
