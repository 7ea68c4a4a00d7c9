/**
 The deep copy of an AST graph. The map from nodes to their copies is extended before a
 node's fields are copied, so that cycles end and sharing is kept.
 */
module DeepCopy {
  import opened Mapping
  import opened Tags

  /** Objects in memory: AST nodes, dynamic objects with their type, and vectors. */
  datatype Object = Node(tag: nat, fields: seq<nat>) | Dynamic(ty: nat, words: seq<nat>) | Vector(elements: seq<nat>)

  type Memory = map<nat, Object>

  /** The fields that are AST pointers, by the table of tags: none for an imv or a basic block. */
  function PointerFields(o: Object): seq<nat> {
    if o.Node? && o.tag != IMV && o.tag != BASIC_BLOCK then o.fields else []
  }

  /** Nodes have the fields of their tag, and lead to nodes. */
  ghost predicate MemoryOk(memory: Memory) {
    0 !in memory && forall p | p in memory && memory[p].Node? :: NodeOk(memory, memory[p])
  }

  ghost predicate NodeOk(memory: Memory, o: Object)
    requires o.Node?
  {
    if o.tag == IMV then |o.fields| == 1 && (o.fields[0] != 0 ==> o.fields[0] in memory && memory[o.fields[0]].Dynamic?)
    else if o.tag == BASIC_BLOCK then |o.fields| == 1 && o.fields[0] in memory && memory[o.fields[0]].Vector?
    else forall f | f in o.fields :: f == 0 || (f in memory && memory[f].Node?)
  }

  /** The copy of p is complete. Pointers to nodes go to their copies. An imv has a new object
      with the same type and words; a basic block has a new vector, whose elements still are
      the old nodes. */
  ghost predicate Copied(old0: Memory, f: map<nat, nat>, now: Memory, p: nat) {
    && p in old0 && old0[p].Node? && NodeOk(old0, old0[p]) && p in f && f[p] in now && now[f[p]].Node?
    && now[f[p]].tag == old0[p].tag
    && (if old0[p].tag == IMV || old0[p].tag ==
         BASIC_BLOCK then OwnObject(old0, now, old0[p].fields[0], now[f[p]].fields)
        else (forall x | x in old0[p].fields :: x in f) && now[f[p]].fields == MapAll(f, old0[p].fields))
  }

  /** The one field is a new object with the same contents; null stays null. */
  ghost predicate OwnObject(old0: Memory, now: Memory, from: nat, fields: seq<nat>) {
    && |fields| == 1
    && (from == 0 ==> fields[0] == 0)
    && (from != 0 ==> fields[0] !in old0 && fields[0] in now && from in old0 && now[fields[0]] == old0[from])
  }

  /** A node with an object or a vector of its own. */
  predicate Owns(o: Object) {
    o.Node? && (o.tag == IMV || o.tag == BASIC_BLOCK) && |o.fields| == 1 && o.fields[0] != 0
  }

  /** No two complete copies share an object or a vector. */
  ghost predicate OwnedApart(f: map<nat, nat>, now: Memory, open: set<nat>) {
    forall p, q |
        && p in f && q in f && p != q && p != 0 && q != 0
        && p !in open && q !in open && Owner(f, now, p) && Owner(f, now, q) ::
      now[f[p]].fields[0] != now[f[q]].fields[0]
  }

  predicate Owner(f: map<nat, nat>, now: Memory, p: nat) {
    p in f && f[p] in now && Owns(now[f[p]])
  }

  /** The map so far: its images are new and different, and complete but for the open nodes. */
  ghost predicate MapOk(old0: Memory, f: map<nat, nat>, now: Memory, open: set<nat>) {
    && 0 in f && f[0] == 0
    && (forall p | p in f && p != 0 :: p in old0 && f[p] !in old0 && f[p] != 0 && f[p] in now)
    && (forall p, q | p in f && q in f && f[p] == f[q] :: p == q)
    && (forall p | p in f && p != 0 && p !in open :: Copied(old0, f, now, p))
    && OwnedApart(f, now, open)
  }

  /** What the node owns was not there before. */
  ghost predicate NewOwn(before: Memory, o: Object) {
    Owns(o) ==> o.fields[0] !in before
  }

  class DeepAstCopier {
    var memory: Memory
    var next: nat
    var copyMapper: map<nat, nat>

    /** The objects that were there before are as they were; new ones are placed from next on. */
    ghost predicate Valid(old0: Memory)
      reads this
    {
      && MemoryOk(old0) && next > 0
      && (forall a | a in old0 :: a in memory && memory[a] == old0[a] && a < next)
      && (forall a | a in memory :: a < next)
    }

    constructor (memory: Memory, next: nat)
      requires MemoryOk(memory) && next > 0 && forall a | a in memory :: a < next
      ensures Valid(memory) && this.memory == memory && copyMapper == map[0 := 0]
    {
      this.memory, this.next, copyMapper := memory, next, map[0 := 0];
    }

    method New(o: Object, ghost old0: Memory) returns (at: nat)
      requires Valid(old0)
      modifies this`memory, this`next
      ensures Valid(old0) && at == old(next) && next == at + 1 && memory == old(memory)[at := o]
    {
      at := next;
      memory := memory[at := o];
      next := next + 1;
    }

    /** `copy_AST`: the node itself, with an imv's object and a block's vector. */
    method CopyAst(p: nat, ghost old0: Memory) returns (at: nat)
      requires Valid(old0) && p in old0 && old0[p].Node?
      modifies this`memory, this`next
      ensures Valid(old0) && old(next) <= at < next && at in memory && memory[at].Node? && memory[at].tag == old0[p].tag
      ensures forall a | a in old(memory) :: a in memory && memory[a] == old(memory[a])
      ensures if old0[p].tag == IMV || old0[p].tag == BASIC_BLOCK then
          OwnObject(old0, memory, old0[p].fields[0], memory[at].fields) && NewOwn(old(memory), memory[at])
        else memory[at].fields == old0[p].fields
    {
      assert NodeOk(old0, old0[p]);
      var node := memory[p];
      if node.tag == IMV || node.tag == BASIC_BLOCK {
        var from := node.fields[0];
        var own := 0;
        if from != 0 { own := New(memory[from], old0); }
        at := New(Node(node.tag, [own]), old0);
      } else {
        at := New(node, old0);
      }
    }

    /** `internal_copy`. Nothing that was there before the call is changed by it. */
    method InternalCopy(p: nat, ghost old0: Memory, ghost open: set<nat>) returns (target: nat)
      requires Valid(old0) && MapOk(old0, copyMapper, memory, open) && (p == 0 || (p in old0 && old0[p].Node?))
      modifies this
      ensures Valid(old0) && MapOk(old0, copyMapper, memory, open)
      ensures p in copyMapper && target == copyMapper[p]
      ensures Extends(old(copyMapper), copyMapper) && Preserves(old(memory), memory) && old(next) <= next
      decreases old0.Keys - copyMapper.Keys, 0
    {
      hide Copied, MapOk, OwnObject, NodeOk, NewOwn;
      if p in copyMapper { return copyMapper[p]; }
      ZeroMapped(old0, copyMapper, memory, open);
      ghost var f0, m0, n0 := copyMapper, memory, next;
      target := CopyAst(p, old0);
      ghost var f1, m1 := f0[p := target], memory;
      NewEntry(old0, f0, m0, n0, m1, p, target, open);
      copyMapper := copyMapper[p := target];
      if memory[target].tag == IMV || memory[target].tag == BASIC_BLOCK {
        CloseObject(old0, f0, m0, f1, m1, p, open);
        return;
      }
      assert old0.Keys - f1.Keys < old0.Keys - f0.Keys by { assert p in old0.Keys - f0.Keys; }
      CopyFields(p, target, old0, m0, open + {p});
      CloseNode(old0, copyMapper, memory, p, open, old0[p].fields);
    }

    /** The loop over the fields of a new node, which begin as those of p. */
    method CopyFields(p: nat, target: nat, ghost old0: Memory, ghost before: Memory, ghost inner: set<nat>)
      requires Valid(old0) && MapOk(old0, copyMapper, memory, inner) && p in inner
      requires p in old0 && old0[p].Node? && old0[p].tag != IMV && old0[p].tag != BASIC_BLOCK
      requires p in copyMapper && copyMapper[p] == target && target !in old0 && target !in before
      requires Preserves(before, memory)
      requires target in memory && memory[target] == old0[p]
      modifies this
      ensures Valid(old0) && MapOk(old0, copyMapper, memory, inner) && Extends(old(copyMapper), copyMapper)
      ensures Preserves(before, memory) && old(next) <= next
      ensures target in memory && memory[target].Node? && memory[target].tag == old0[p].tag
      ensures Rewritten(copyMapper, old0[p].fields, memory[target].fields, |old0[p].fields|)
      decreases old0.Keys - copyMapper.Keys, 1
    {
      hide Copied, MapOk, OwnObject, NodeOk;
      ghost var f1 := copyMapper;
      var fields := PointerFields(memory[target]);
      for x := 0 to |fields|
        invariant Valid(old0) && MapOk(old0, copyMapper, memory, inner) && old(next) <= next
        invariant Extends(f1, copyMapper) && Preserves(before, memory)
        invariant target in memory && memory[target].Node? && memory[target].tag == old0[p].tag
        invariant Rewritten(copyMapper, fields, memory[target].fields, x)
      {
        FieldIsNode(old0, p, x);
        ghost var f2, m2 := copyMapper, memory;
        assert old0.Keys - f2.Keys <= old0.Keys - f1.Keys;
        var copy := InternalCopy(fields[x], old0, inner);
        RewriteField(old0, copyMapper, memory, inner, p, target, fields, f2, m2, x, copy);
        memory := memory[target := memory[target].(fields := memory[target].fields[x := copy])];
      }
    }
  }

  ghost predicate Extends(f: map<nat, nat>, f': map<nat, nat>) {
    forall p | p in f :: p in f' && f'[p] == f[p]
  }

  ghost predicate Preserves(before: Memory, now: Memory) {
    forall a | a in before :: a in now && now[a] == before[a]
  }

  /** The first x fields were replaced by their copies. */
  ghost predicate Rewritten(f: map<nat, nat>, from: seq<nat>, to: seq<nat>, x: nat) {
    && x <= |from| == |to|
    && (forall k | x <= k < |from| :: to[k] == from[k])
    && (forall k | 0 <= k < x :: from[k] in f && to[k] == f[from[k]])
  }

  lemma ZeroMapped(old0: Memory, f: map<nat, nat>, now: Memory, open: set<nat>)
    requires MapOk(old0, f, now, open)
    ensures 0 in f
  {
  }

  /** A complete copy stays complete. */
  lemma CopiedStays(old0: Memory, f: map<nat, nat>, now: Memory, f': map<nat, nat>, now': Memory, p: nat)
    requires Copied(old0, f, now, p) && Extends(f, f') && f[p] in now' && now'[f[p]] == now[f[p]]
    requires forall a | a in now && a !in old0 && (!now[a].Node?) :: a in now' && now'[a] == now[a]
    requires MemoryOk(old0)
    ensures Copied(old0, f', now', p)
  {
    if old0[p].tag != IMV && old0[p].tag != BASIC_BLOCK {
      assert MapAll(f', old0[p].fields) == MapAll(f, old0[p].fields);
    }
  }

  lemma NewEntry(old0: Memory, f0: map<nat, nat>, m0: Memory, n0: nat, m1: Memory, p: nat, target: nat, open: set<nat>)
    requires MemoryOk(old0) && MapOk(old0, f0, m0, open) && p !in f0 && p in old0 && p != 0
    requires (forall a | a in m0 :: a < n0) && Preserves(old0, m0) && Preserves(m0, m1) && n0 <= target && target in m1
    requires n0 > 0
    ensures MapOk(old0, f0[p := target], m1, open + {p})
  {
    hide Copied;
    var f1 := f0[p := target];
    forall q | q in f1 && q != 0 && q !in open + {p} ensures Copied(old0, f1, m1, q) {
      CopiedStays(old0, f0, m0, f1, m1, q);
    }
    assert target !in old0 && target !in m0;
  }

  lemma FieldIsNode(old0: Memory, p: nat, x: nat)
    requires MemoryOk(old0) && p in old0 && old0[p].Node? && old0[p].tag != IMV && old0[p].tag != BASIC_BLOCK
    requires x < |old0[p].fields|
    ensures var f := old0[p].fields[x]; f == 0 || (f in old0 && old0[f].Node?)
  {
    assert NodeOk(old0, old0[p]);
  }

  lemma RewriteField(old0: Memory, f: map<nat, nat>, now: Memory, inner: set<nat>, p: nat, target: nat,
      fields: seq<nat>, f2: map<nat, nat>, m2: Memory, x: nat, copy: nat)
    requires MemoryOk(old0) && MapOk(old0, f, now, inner) && p in inner && p in f && f[p] == target
    requires Extends(f2, f) && Preserves(m2, now) && target in m2 && m2[target].Node? && target !in old0
    requires Rewritten(f2, fields, m2[target].fields, x) && x < |fields| && fields[x] in f && copy == f[fields[x]]
    ensures var o := now[target]; var now' := now[target := o.(fields := o.fields[x := copy])];
      MapOk(old0, f, now', inner) && Rewritten(f, fields, now'[target].fields, x + 1)
  {
    hide Copied;
    var o := now[target];
    var now' := now[target := o.(fields := o.fields[x := copy])];
    forall q | q in f && q != 0 && q !in inner ensures Copied(old0, f, now', q) {
      assert f[q] != f[p];
      CopiedStays(old0, f, now, f, now', q);
    }
  }

  lemma OwnedBefore(old0: Memory, f0: map<nat, nat>, m0: Memory, now: Memory, q: nat, open: set<nat>)
    requires MapOk(old0, f0, m0, open) && Preserves(m0, now) && q in f0 && q != 0 && q !in open && Owner(f0, now, q)
    ensures now[f0[q]].fields[0] in m0
  {
    assert Copied(old0, f0, m0, q);
  }

  /** An imv or a basic block is complete as soon as it is made. */
  lemma CloseObject(old0: Memory, f0: map<nat, nat>, m0: Memory, f: map<nat, nat>, now: Memory, p: nat, open: set<nat>)
    requires MapOk(old0, f0, m0, open) && Preserves(m0, now) && p !in f0 && p in f && f == f0[p := f[p]]
    requires f[p] in now && NewOwn(m0, now[f[p]])
    requires MemoryOk(old0) && MapOk(old0, f, now, open + {p}) && p in f && p in old0 && old0[p].Node?
    requires old0[p].tag == IMV || old0[p].tag == BASIC_BLOCK
    requires f[p] in now && now[f[p]].Node? && now[f[p]].tag == old0[p].tag
    requires OwnObject(old0, now, old0[p].fields[0], now[f[p]].fields)
    ensures MapOk(old0, f, now, open)
  {
    assert NodeOk(old0, old0[p]);
    assert Copied(old0, f, now, p);
    hide Copied;
    forall q | q in f0 && q != 0 && q !in open && Owner(f, now, q) ensures now[f[q]].fields[0] in m0 {
      OwnedBefore(old0, f0, m0, now, q, open);
    }
  }

  /** A node is complete when all its fields were replaced. */
  lemma CloseNode(old0: Memory, f: map<nat, nat>, now: Memory, p: nat, open: set<nat>, fields: seq<nat>)
    requires MemoryOk(old0) && MapOk(old0, f, now, open + {p}) && p in f && p in old0 && old0[p].Node?
    requires old0[p].tag != IMV && old0[p].tag != BASIC_BLOCK && fields == old0[p].fields
    requires f[p] in now && now[f[p]].Node? && now[f[p]].tag == old0[p].tag
    requires Rewritten(f, fields, now[f[p]].fields, |fields|)
    ensures MapOk(old0, f, now, open)
  {
    assert NodeOk(old0, old0[p]);
    assert Copied(old0, f, now, p);
    hide Copied;
  }

  /** An isomorphism of a graph onto new nodes: it is closed under pointer fields, different
      nodes have different copies, and no copy is an old node. */
  ghost predicate CopyOf(old0: Memory, f: map<nat, nat>, now: Memory, starter: nat, result: nat) {
    && starter in f && f[starter] == result
    && MapOk(old0, f, now, {})
  }

  /** `deep_AST_copier`: for every graph, with any cycles, the copy ends, is isomorphic to it
      over pointer fields, is all new, and leaves the original as it was. */
  method DeepCopy(memory: Memory, next: nat, starter: nat) returns (result: nat, memory': Memory, f: map<nat, nat>)
    requires MemoryOk(memory) && next > 0 && (forall a | a in memory :: a < next)
    requires starter == 0 || (starter in memory && memory[starter].Node?)
    ensures CopyOf(memory, f, memory', starter, result) && Preserves(memory, memory')
  {
    var copier := new DeepAstCopier(memory, next);
    result := copier.InternalCopy(starter, memory, {});
    memory', f := copier.memory, copier.copyMapper;
  }

  // ---------------------------------------------------------------- nodes that a root reaches

  ghost predicate Path(memory: Memory, p: seq<nat>, from: nat, to: nat) {
    && |p| > 0 && p[0] == from && p[|p| - 1] == to
    && (forall i | 0 <= i < |p| - 1 :: p[i] in memory && p[i + 1] in PointerFields(memory[p[i]]))
  }

  /** Everything that pointer fields lead to from the starter was copied, and a path of the
      original is a path of the copy. */
  lemma {:induction false} PathsCopied(old0: Memory, f: map<nat, nat>, now: Memory, starter: nat, result: nat,
      p: seq<nat>, to: nat)
    requires MemoryOk(old0) && CopyOf(old0, f, now, starter, result) && Path(old0, p, starter, to)
    ensures to in f && exists q :: |q| == |p| && Path(now, q, result, f[to])
    decreases |p|
  {
    if |p| == 1 {
      assert Path(now, [result], result, f[to]);
    } else {
      var n := |p| - 1;
      var last := p[n - 1];
      assert Path(old0, p[..n], starter, last);
      PathsCopied(old0, f, now, starter, result, p[..n], last);
      assert p[n - 1 + 1] in PointerFields(old0[last]);
      assert Copied(old0, f, now, last);
      var i :| 0 <= i < |old0[last].fields| && old0[last].fields[i] == to;
      assert now[f[last]].fields[i] == f[to];
      var q :| |q| == |p[..n]| && Path(now, q, result, f[last]);
      var q' := q + [f[to]];
      forall j | 0 <= j < |q'| - 1 ensures q'[j] in now && q'[j + 1] in PointerFields(now[q'[j]]) {
        if j < |q| - 1 { assert q[j + 1] in PointerFields(now[q[j]]); }
      }
      assert Path(now, q', result, f[to]);
    }
  }
}
