/**
 The ancestry tree of users. When a user dies, nodes that no longer say anything about
 kinship are pruned: dead leaves, and dead nodes with a single child.
 */
module Ancestry {
  import opened Options

  /** A tree by its parent pointers. */
  datatype Tree = Tree(parent: map<nat, Option<nat>>, zombies: set<nat>)

  ghost predicate Edge(t: Tree, child: nat, above: nat) {
    child in t.parent && t.parent[child] == Some(above)
  }

  /** A way up from one node to another. */
  ghost predicate Path(t: Tree, p: seq<nat>, from: nat, to: nat) {
    && |p| > 0 && p[0] == from && p[|p| - 1] == to
    && (forall i | 0 <= i < |p| :: p[i] in t.parent)
    && (forall i | 0 <= i < |p| - 1 :: Edge(t, p[i], p[i + 1]))
  }

  /** a is b or an ancestor of b. */
  ghost predicate Above(t: Tree, a: nat, b: nat) {
    exists p: seq<nat> :: Path(t, p, b, a)
  }

  /** w is the lowest common ancestor of u and v. */
  ghost predicate Lowest(t: Tree, w: nat, u: nat, v: nat) {
    Above(t, w, u) && Above(t, w, v) && forall a | Above(t, a, u) && Above(t, a, v) :: Above(t, a, w)
  }

  ghost predicate Ranked(t: Tree, rank: map<nat, nat>) {
    forall c, a | Edge(t, c, a) :: a in t.parent && c in rank && a in rank && rank[a] < rank[c]
  }

  function Living(t: Tree): set<nat> {
    t.parent.Keys - t.zombies
  }

  ghost function Children(t: Tree, x: nat): set<nat> {
    set c | c in t.parent && t.parent[c] == Some(x)
  }

  /** Taking a node out: its children, if any, go to its parent. */
  function Remove(t: Tree, x: nat): Tree
    requires x in t.parent
  {
    Tree(map n | n in t.parent && n != x :: if t.parent[n] == Some(x) then t.parent[x] else t.parent[n],
      t.zombies - {x})
  }

  /** What pruning may do to a tree: only dead nodes go, and kinship stays. */
  ghost predicate Pruned(t: Tree, t': Tree) {
    && t'.parent.Keys <= t.parent.Keys && Living(t') == Living(t) && t'.zombies <= t.zombies
    && (forall a, b | a in t'.parent && b in t'.parent :: Above(t', a, b) <==> Above(t, a, b))
    && (forall w, u, v | u in t'.parent && v in t'.parent :: Lowest(t', w, u, v) <==> Lowest(t, w, u, v))
  }

  lemma PrunedRefl(t: Tree)
    ensures Pruned(t, t)
  {
  }

  lemma PrunedTrans(t: Tree, t1: Tree, t2: Tree)
    requires Pruned(t, t1) && Pruned(t1, t2)
    ensures Pruned(t, t2)
  {
    hide Above, Lowest, Living;
  }

  // ---------------------------------------------------------------- removal keeps kinship

  lemma AboveStep(t: Tree, a: nat, b: nat, c: nat)
    requires Above(t, a, b) && Edge(t, c, b)
    ensures Above(t, a, c)
  {
    var p :| Path(t, p, b, a);
    assert Path(t, [c] + p, c, a);
  }

  lemma AboveSelf(t: Tree, a: nat)
    requires a in t.parent
    ensures Above(t, a, a)
  {
    assert Path(t, [a], a, a);
  }

  lemma AboveSplit(t: Tree, a: nat, b: nat)
    requires Above(t, a, b)
    ensures b in t.parent && a in t.parent
    ensures a == b || exists c :: Edge(t, b, c) && Above(t, a, c)
  {
    var p :| Path(t, p, b, a);
    if |p| > 1 {
      assert Edge(t, p[0], p[0 + 1]);
      assert Path(t, p[1..], p[1], a);
    }
  }

  lemma {:induction false} RemoveLoses(t: Tree, x: nat, p: seq<nat>, b: nat, a: nat)
    requires x in t.parent && Path(Remove(t, x), p, b, a)
    requires forall c, d | Edge(t, c, d) :: d in t.parent
    ensures Above(t, a, b)
    decreases |p|
  {
    var t' := Remove(t, x);
    if |p| == 1 {
      AboveSelf(t, a);
    } else {
      assert Edge(t', p[0], p[0 + 1]);
      assert Path(t', p[1..], p[1], a);
      RemoveLoses(t, x, p[1..], p[1], a);
      if t.parent[b] == Some(x) {
        AboveStep(t, a, p[1], x);
        AboveStep(t, a, x, b);
      } else {
        AboveStep(t, a, p[1], b);
      }
    }
  }

  lemma {:induction false} RemoveFinds(t: Tree, x: nat, p: seq<nat>, b: nat, a: nat)
    requires x in t.parent && Path(t, p, b, a) && a != x && b != x
    requires forall c :: !Edge(t, c, c)
    ensures Above(Remove(t, x), a, b)
    decreases |p|
  {
    var t' := Remove(t, x);
    if |p| == 1 {
      AboveSelf(t', a);
    } else {
      assert Edge(t, p[0], p[0 + 1]);
      if p[1] == x {
        assert Edge(t, p[1], p[1 + 1]);
        assert Path(t, p[2..], p[2], a);
        RemoveFinds(t, x, p[2..], p[2], a);
        AboveStep(t', a, p[2], b);
      } else {
        assert Path(t, p[1..], p[1], a);
        RemoveFinds(t, x, p[1..], p[1], a);
        AboveStep(t', a, p[1], b);
      }
    }
  }

  /** Removing a node keeps the ancestor relation of the others. */
  lemma RemoveKeepsAbove(t: Tree, rank: map<nat, nat>, x: nat, a: nat, b: nat)
    requires x in t.parent && Ranked(t, rank) && a != x && b != x
    ensures Above(Remove(t, x), a, b) <==> Above(t, a, b)
  {
    if Above(Remove(t, x), a, b) {
      var p :| Path(Remove(t, x), p, b, a);
      RemoveLoses(t, x, p, b, a);
    }
    if Above(t, a, b) {
      var p :| Path(t, p, b, a);
      RemoveFinds(t, x, p, b, a);
    }
  }

  /** A node with at most one child is not the lowest common ancestor of others: its child is
      lower. */
  lemma NotLowest(t: Tree, rank: map<nat, nat>, x: nat, u: nat, v: nat)
    requires x in t.parent && Ranked(t, rank) && u != x && v != x && |Children(t, x)| <= 1
    ensures !Lowest(t, x, u, v)
  {
    if Lowest(t, x, u, v) {
      var c := ChildTowards(t, x, u);
      var d := ChildTowards(t, x, v);
      OneChild(t, x, c, d);
      assert Above(t, c, x);
      RankAbove(t, rank, c, x);
    }
  }

  lemma OneChild(t: Tree, x: nat, c: nat, d: nat)
    requires |Children(t, x)| <= 1 && c in Children(t, x) && d in Children(t, x)
    ensures c == d
  {
    if c != d {
      assert |{c, d}| == 2;
      SubsetSize({c, d}, Children(t, x));
    }
  }

  lemma {:induction false} SubsetSize(a: set<nat>, b: set<nat>)
    requires a <= b
    ensures |a| <= |b|
  {
    if a != {} {
      var x :| x in a;
      SubsetSize(a - {x}, b - {x});
    }
  }

  lemma ChildTowards(t: Tree, x: nat, u: nat) returns (c: nat)
    requires Above(t, x, u) && u != x
    ensures c in Children(t, x) && Above(t, c, u)
  {
    var p :| Path(t, p, u, x);
    var n := |p| - 2;
    c := p[n];
    assert Edge(t, p[n], p[n + 1]);
    assert Path(t, p[..n + 1], u, c);
  }

  lemma {:induction false} PathRank(t: Tree, rank: map<nat, nat>, p: seq<nat>, b: nat, a: nat)
    requires Ranked(t, rank) && Path(t, p, b, a)
    ensures a == b || (a in rank && b in rank && rank[a] < rank[b])
    decreases |p|
  {
    if |p| > 1 {
      assert Edge(t, p[0], p[0 + 1]);
      assert Path(t, p[1..], p[1], a);
      PathRank(t, rank, p[1..], p[1], a);
    }
  }

  lemma RankAbove(t: Tree, rank: map<nat, nat>, a: nat, b: nat)
    requires Ranked(t, rank) && Above(t, a, b)
    ensures a == b || (a in rank && b in rank && rank[a] < rank[b])
  {
    var p :| Path(t, p, b, a);
    PathRank(t, rank, p, b, a);
  }

  /** Removing a dead node with at most one child is pruning. */
  lemma RemoveIsPruning(t: Tree, rank: map<nat, nat>, x: nat)
    requires x in t.parent && x in t.zombies && Ranked(t, rank) && |Children(t, x)| <= 1
    ensures Pruned(t, Remove(t, x))
  {
    var t' := Remove(t, x);
    assert Living(t') == Living(t);
    forall a, b | a in t'.parent && b in t'.parent ensures Above(t', a, b) <==> Above(t, a, b) {
      RemoveKeepsAbove(t, rank, x, a, b);
    }
    hide Above;
    forall w, u, v | u in t'.parent && v in t'.parent ensures Lowest(t', w, u, v) <==> Lowest(t, w, u, v) {
      RemoveKeepsLowest(t, rank, x, w, u, v);
    }
  }

  lemma InTree(t: Tree, a: nat, b: nat)
    requires Above(t, a, b)
    ensures a in t.parent && b in t.parent
  {
    AboveSplit(t, a, b);
  }

  lemma RemoveKeepsLowest(t: Tree, rank: map<nat, nat>, x: nat, w: nat, u: nat, v: nat)
    requires x in t.parent && Ranked(t, rank) && |Children(t, x)| <= 1
    requires u in t.parent && v in t.parent && u != x && v != x
    ensures Lowest(Remove(t, x), w, u, v) <==> Lowest(t, w, u, v)
  {
    var t' := Remove(t, x);
    hide Above, Remove;
    if Lowest(t, w, u, v) {
      NotLowest(t, rank, x, u, v);
      forall a | Above(t', a, u) && Above(t', a, v) ensures Above(t', a, w) {
        OutsideTree(t, x, a, u);
        RemoveKeepsAbove(t, rank, x, a, u);
        RemoveKeepsAbove(t, rank, x, a, v);
        RemoveKeepsAbove(t, rank, x, a, w);
      }
      RemoveKeepsAbove(t, rank, x, w, u);
      RemoveKeepsAbove(t, rank, x, w, v);
    }
    if Lowest(t', w, u, v) {
      OutsideTree(t, x, w, u);
      RemoveKeepsAbove(t, rank, x, w, u);
      RemoveKeepsAbove(t, rank, x, w, v);
      forall a | Above(t, a, u) && Above(t, a, v) ensures Above(t, a, w) {
        if a != x {
          RemoveKeepsAbove(t, rank, x, a, u);
          RemoveKeepsAbove(t, rank, x, a, v);
          RemoveKeepsAbove(t, rank, x, a, w);
        } else {
          CommonChild(t, rank, x, w, u, v);
        }
      }
    }
  }

  lemma OutsideTree(t: Tree, x: nat, a: nat, b: nat)
    requires x in t.parent && Above(Remove(t, x), a, b)
    ensures a != x
  {
    InTree(Remove(t, x), a, b);
  }

  /** If the removed node was a common ancestor, so was its only child, which was kept. */
  lemma CommonChild(t: Tree, rank: map<nat, nat>, x: nat, w: nat, u: nat, v: nat)
    requires x in t.parent && Ranked(t, rank) && |Children(t, x)| <= 1 && u != x && v != x && w != x
    requires Above(t, x, u) && Above(t, x, v) && Lowest(Remove(t, x), w, u, v)
    ensures Above(t, x, w)
  {
    var c := ChildTowards(t, x, u);
    var d := ChildTowards(t, x, v);
    OneChild(t, x, c, d);
    hide Above, Remove;
    assert c != x by { assert Edge(t, c, x); }
    RemoveKeepsAbove(t, rank, x, c, u);
    RemoveKeepsAbove(t, rank, x, c, v);
    RemoveKeepsAbove(t, rank, x, c, w);
    assert Above(t, c, w);
    AboveTrans(t, x, c, w) by { AboveSelf(t, x); AboveStep(t, x, x, c); }
  }

  lemma AboveTrans(t: Tree, a: nat, b: nat, c: nat)
    requires Above(t, a, b) && Above(t, b, c)
    ensures Above(t, a, c)
  {
    var p :| Path(t, p, b, a);
    var q :| Path(t, q, c, b);
    var r := q + p[1..];
    forall i | 0 <= i < |r| - 1 ensures Edge(t, r[i], r[i + 1]) {
      if i < |q| - 1 { assert Edge(t, q[i], q[i + 1]); }
      else { assert Edge(t, p[i - (|q| - 1)], p[i - (|q| - 1) + 1]); }
    }
    assert Path(t, r, c, a);
  }

  // ---------------------------------------------------------------- the nodes

  type Nodes = map<nat, UserNode>

  /** The fields of all nodes, by id. */
  datatype Shape = Shape(parent: map<nat, UserNode?>, below: map<nat, set<UserNode>>, dead: set<nat>)

  ghost function ShapeOf(nodes: Nodes): Shape
    reads nodes.Values
  {
    Shape(map i | i in nodes :: nodes[i].parent,
      map i | i in nodes :: nodes[i].descendants,
      set i | i in nodes && nodes[i].zombieNode)
  }

  ghost function TreeOf(s: Shape): Tree {
    Tree(map i | i in s.parent :: (if s.parent[i] == null then None else Some(s.parent[i].id)), s.dead)
  }

  ghost predicate Has(nodes: Nodes, n: UserNode) {
    n.id in nodes && nodes[n.id] == n
  }

  /** A node and its parent know of each other, and so do a node and its descendants. */
  ghost predicate NodeOk(nodes: Nodes, s: Shape, i: nat)
    requires i in nodes && s.parent.Keys == s.below.Keys == nodes.Keys
  {
    && (s.parent[i] != null ==>
          Has(nodes, s.parent[i]) && nodes[i] in s.below[s.parent[i].id] && s.parent[i].rank < nodes[i].rank)
    && (forall d | d in s.below[i] :: Has(nodes, d) && s.parent[d.id] == nodes[i])
  }

  /** The nodes agree about who is whose parent, and there is one root. */
  ghost predicate ShapeOk(nodes: Nodes, s: Shape) {
    && s.parent.Keys == s.below.Keys == nodes.Keys && s.dead <= nodes.Keys
    && (forall i | i in nodes :: nodes[i].id == i)
    && (forall i {:trigger NodeOk(nodes, s, i)} | i in nodes :: NodeOk(nodes, s, i))
    && (forall i, j | i in nodes && j in nodes && s.parent[i] == null && s.parent[j] == null :: i == j)
  }

  ghost predicate Linked(nodes: Nodes)
    reads nodes.Values
  {
    ShapeOk(nodes, ShapeOf(nodes))
  }

  ghost function Ranks(nodes: Nodes): map<nat, nat> {
    map i | i in nodes :: nodes[i].rank
  }

  /** Every dead node but x still joins at least two others. */
  ghost predicate Branches(s: Shape, x: Option<nat>) {
    forall i | i in s.dead && i in s.below && x != Some(i) :: |s.below[i]| >= 2
  }

  ghost predicate Branching(nodes: Nodes)
    reads nodes.Values
  {
    Branches(ShapeOf(nodes), None)
  }

  class UserNode {
    var zombieNode: bool
    const id: nat
    var parent: UserNode?
    var descendants: set<UserNode>
    /** Below its parent's at all times; says that there are no cycles. */
    ghost const rank: nat

    /** A new living node, below an existing one or as the root. The source leaves the flag
        unset and does not enter the node among its parent's descendants. */
    constructor (i: nat, p: UserNode?, ghost nodes: Nodes)
      requires Linked(nodes) && i !in nodes && (if p == null then nodes == map[] else Has(nodes, p))
      modifies if p == null then {} else {p}
      ensures !zombieNode && id == i && parent == p && descendants == {}
      ensures p != null ==>
        p.descendants == old(p.descendants) + {this} && p.zombieNode == old(p.zombieNode) && p.parent == old(p.parent)
      ensures Linked(nodes[i := this])
    {
      zombieNode := false;
      id := i;
      parent := p;
      descendants := {};
      rank := if p == null then 0 else p.rank + 1;
      new;
      if p != null {
        p.Adopt(this, nodes);
      } else {
        BornOk(nodes, ShapeOf(nodes), this, null);
        ShapeIs(nodes[i := this], Born(ShapeOf(nodes), this, null));
      }
    }

    /** Enters a new node among the descendants. */
    method Adopt(child: UserNode, ghost nodes: Nodes)
      requires Linked(nodes) && Has(nodes, this) && child.id !in nodes && child !in nodes.Values
      requires child.parent == this && child.descendants == {} && !child.zombieNode && child.rank > rank
      modifies this`descendants
      ensures descendants == old(descendants) + {child} && Linked(nodes[child.id := child])
    {
      hide NodeOk;
      ghost var s, more := ShapeOf(nodes), nodes[child.id := child];
      BornOk(nodes, s, child, this);
      assert forall j | j in nodes :: nodes[j] == this ==> j == id;
      hide ShapeOk;
      ghost var s' := Born(s, child, this);
      assert child.id !in s.dead && s.dead <= nodes.Keys;
      descendants := descendants + {child};
      forall j | j in more ensures FieldsAre(more[j], s', j) { }
      ShapeIs(more, s');
    }

    /** Marks the node dead and prunes. Fails, as the source does, when it is alone. */
    method Death(ghost nodes: Nodes) returns (ok: bool, ghost nodes': Nodes)
      requires Linked(nodes) && Has(nodes, this) && !zombieNode && Branching(nodes)
      modifies nodes.Values
      ensures ok <==> |nodes| > 1
      ensures ok ==> nodes'.Keys <= nodes.Keys && (forall i | i in nodes' :: nodes'[i] == nodes[i])
      ensures ok ==> Linked(nodes') && Branching(nodes')
      ensures ok ==> Living(TreeOf(ShapeOf(nodes'))) == old(Living(TreeOf(ShapeOf(nodes)))) - {id}
      ensures ok ==> KinshipKept(old(TreeOf(ShapeOf(nodes))), TreeOf(ShapeOf(nodes')))
    {
      ghost var s := ShapeOf(nodes);
      zombieNode := true;
      assert ShapeOf(nodes) == s.(dead := s.dead + {id});
      hide ShapeOf, Pruned, KinshipKept, Living;
      DeadOk(nodes, s, id);
      ok, nodes' := KillIfUseless(nodes);
      if ok { DeathPrunes(TreeOf(s), TreeOf(s.(dead := s.dead + {id})), TreeOf(ShapeOf(nodes')), id); }
    }

    /** Prunes this node if it is dead and has no or one descendant, and goes on from there. */
    method KillIfUseless(ghost nodes: Nodes) returns (ok: bool, ghost nodes': Nodes)
      requires Linked(nodes) && Has(nodes, this) && Branches(ShapeOf(nodes), Some(id))
      modifies nodes.Values
      ensures ok <==> !old(zombieNode) || |nodes| > 1
      ensures ok ==> nodes'.Keys <= nodes.Keys && (forall i | i in nodes' :: nodes'[i] == nodes[i])
      ensures ok ==> Linked(nodes') && Branching(nodes') && Pruned(old(TreeOf(ShapeOf(nodes))), TreeOf(ShapeOf(nodes')))
      decreases |nodes|
    {
      hide ShapeOf, ShapeOk, Pruned, TreeOf, NodeOk, Branches;
      ok, nodes' := true, nodes;
      ghost var s := ShapeOf(nodes);
      PrunedRefl(TreeOf(s));
      FieldsOf(nodes, this);
      if !zombieNode {
        LivingBranches(s, id);
        return;
      }
      if |descendants| > 1 {
        NotAlone(nodes, s, id);
        EnoughBranches(s, id);
        return;
      }
      if parent == null && descendants == {} {
        Alone(nodes, s, id);
        return false, nodes;
      }
      NotAlone(nodes, s, id);
      var next := Detach(nodes);
      nodes' := nodes - {id};
      ghost var s1 := ShapeOf(nodes');
      RemovedOk(nodes, s, this, next);
      RemovedPrunes(nodes, s, this);
      if next.id in s1.dead { NotAlone(nodes', s1, next.id); }
      NodesLess(nodes, s, this);
      DeadIsZombie(nodes', next);
      ok, nodes' := next.KillIfUseless(nodes');
      PrunedTrans(TreeOf(s), TreeOf(s1), TreeOf(ShapeOf(nodes')));
    }

    /** All living nodes from here down, without the part of the tree below `avoid`. */
    method ListAllLiving(avoid: UserNode?, ghost nodes: Nodes, ghost bound: nat) returns (all: seq<UserNode>)
      requires Linked(nodes) && Has(nodes, this) && (avoid != null ==> Has(nodes, avoid))
      requires forall i | i in nodes :: nodes[i].rank <= bound
      ensures forall n :: n in all <==> Listed(nodes, TreeOf(ShapeOf(nodes)), id, avoid, n)
      ensures Distinct(all)
      decreases bound - rank, 0
    {
      hide NodeOk, ShapeOf, TreeOf, ShapeOk, Listed, ListedBelow;
      ghost var s := ShapeOf(nodes);
      ghost var t := TreeOf(s);
      FieldsOf(nodes, this);
      if this == avoid {
        forall n ensures !Listed(nodes, t, id, avoid, n) { NotPast(nodes, t, id, avoid, n); }
        return [];
      }
      all := if zombieNode then [] else [this];
      var rest := descendants;
      ghost var seen: set<UserNode> := {};
      assert forall n :: !ListedBelow(nodes, t, seen, avoid, n) by { NoneBelow(nodes, t, avoid); }
      while rest != {}
        invariant seen + rest == descendants && seen !! rest
        invariant forall n | n in all :: Has(nodes, n)
        invariant forall n | Has(nodes, n) ::
          n in all <==> (n == this && !zombieNode) || ListedBelow(nodes, t, seen, avoid, n)
        invariant Distinct(all)
      {
        var x :| x in rest;
        ChildFacts(nodes, s, this, x);
        var k := x.ListAllLiving(avoid, nodes, bound);
        forall n | n in k ensures n !in all { ApartBelow(nodes, s, this, seen, x, avoid, n); }
        DistinctAppend(all, k);
        forall n | n in k ensures Has(nodes, n) { ListedIsThere(nodes, t, x.id, avoid, n); }
        forall n | Has(nodes, n)
          ensures ListedBelow(nodes, t, seen + {x}, avoid, n) <==> ListedBelow(nodes, t, seen, avoid, n) || n in k
        {
          ListedMore(nodes, t, seen, x, avoid, n);
        }
        all := all + k;
        rest := rest - {x};
        seen := seen + {x};
      }
      assert seen == descendants;
      forall n ensures n in all <==> Listed(nodes, TreeOf(ShapeOf(nodes)), id, avoid, n) {
        ListedSplit(nodes, s, this, avoid, n);
        if Listed(nodes, t, id, avoid, n) { ListedIsThere(nodes, t, id, avoid, n); }
      }
    }

    /** Takes a dead node with at most one descendant out; pruning goes on at its parent, or
        else at its descendant. */
    method Detach(ghost nodes: Nodes) returns (next: UserNode)
      requires Linked(nodes) && Has(nodes, this) && |descendants| <= 1 && (parent != null || descendants != {})
      modifies nodes.Values
      ensures ShapeOf(nodes - {id}) == Removed(old(ShapeOf(nodes)), this)
      ensures if old(parent) != null then next == old(parent) else next in old(descendants)
    {
      ghost var s := ShapeOf(nodes);
      DetachFacts(nodes, s, this);
      hide ShapeOk, ShapeOf;
      if parent != null {
        next := parent;
        if descendants == {} { DropLeaf(nodes); } else { Splice(nodes); }
      } else {
        next := DropRoot(nodes);
      }
    }

    /** A leaf leaves its parent. */
    method DropLeaf(ghost nodes: Nodes)
      requires Detachable(nodes, ShapeOf(nodes), this) && parent != null && descendants == {}
      modifies parent
      ensures ShapeOf(nodes - {id}) == Removed(old(ShapeOf(nodes)), this)
    {
      ghost var s, less := ShapeOf(nodes), nodes - {id};
      parent.descendants := parent.descendants - {this};
      ghost var s' := Removed(s, this);
      forall i | i in less ensures FieldsAre(less[i], s', i) { }
      ShapeIs(less, s');
    }

    /** A node with one descendant is replaced by it. */
    method Splice(ghost nodes: Nodes)
      requires Detachable(nodes, ShapeOf(nodes), this) && parent != null && descendants != {}
      modifies nodes.Values
      ensures ShapeOf(nodes - {id}) == Removed(old(ShapeOf(nodes)), this)
    {
      ghost var s, less := ShapeOf(nodes), nodes - {id};
      var up := parent;
      var only :| only in descendants;
      up.descendants := up.descendants - {this};
      up.descendants := up.descendants + {only};
      only.parent := up;
      ghost var s' := Removed(s, this);
      forall i | i in less ensures FieldsAre(less[i], s', i) { }
      ShapeIs(less, s');
    }

    /** A root with one descendant makes it the root. */
    method DropRoot(ghost nodes: Nodes) returns (next: UserNode)
      requires Detachable(nodes, ShapeOf(nodes), this) && parent == null && descendants != {}
      modifies nodes.Values
      ensures ShapeOf(nodes - {id}) == Removed(old(ShapeOf(nodes)), this) && next in old(descendants)
    {
      ghost var s, less := ShapeOf(nodes), nodes - {id};
      next :| next in descendants;
      next.parent := null;
      ghost var s' := Removed(s, this);
      forall i | i in less ensures FieldsAre(less[i], s', i) { }
      ShapeIs(less, s');
    }
  }

  ghost predicate FieldsAre(n: UserNode, s: Shape, i: nat)
    requires i in s.parent && i in s.below
    reads n
  {
    n.parent == s.parent[i] && n.descendants == s.below[i] && (n.zombieNode <==> i in s.dead)
  }

  lemma ShapeIs(nodes: Nodes, s: Shape)
    requires s.parent.Keys == s.below.Keys == nodes.Keys && s.dead <= nodes.Keys
    requires forall i | i in nodes :: FieldsAre(nodes[i], s, i)
    ensures ShapeOf(nodes) == s
  {
    assert ShapeOf(nodes).dead == s.dead;
  }

  /** What is known of a node with at most one descendant. */
  ghost predicate Detachable(nodes: Nodes, s: Shape, n: UserNode) {
    && Has(nodes, n) && s.parent.Keys == s.below.Keys == nodes.Keys && s.dead <= nodes.Keys
    && (forall i | i in nodes :: nodes[i].id == i)
    && (s.parent[n.id] != null ==> Has(nodes, s.parent[n.id]) && s.parent[n.id] != n)
    && (forall d | d in s.below[n.id] :: Has(nodes, d) && d != n && d != s.parent[n.id] && s.below[n.id] == {d})
    && (forall i | i in nodes :: s.parent[i] == n <==> nodes[i] in s.below[n.id])
  }

  lemma DetachFacts(nodes: Nodes, s: Shape, n: UserNode)
    requires ShapeOk(nodes, s) && Has(nodes, n) && |s.below[n.id]| <= 1
    ensures Detachable(nodes, s, n)
  {
    assert NodeOk(nodes, s, n.id);
    forall d | d in s.below[n.id] ensures s.below[n.id] == {d} && d != n && d != s.parent[n.id] {
      OnlyOne(s.below[n.id], d);
      assert NodeOk(nodes, s, d.id);
    }
    forall i | i in nodes ensures s.parent[i] == n <==> nodes[i] in s.below[n.id] { assert NodeOk(nodes, s, i); }
  }

  /** The fields when n is taken out: its descendants go to its parent. */
  ghost function Removed(s: Shape, n: UserNode): Shape
    requires n.id in s.parent && n.id in s.below
  {
    var up, x := s.parent[n.id], n.id;
    Shape(map i | i in s.parent && i != x :: (if s.parent[i] == n then up else s.parent[i]),
          map i | i in s.below && i != x ::
            (if up != null && i == up.id then s.below[i] - {n} + s.below[x] else s.below[i]),
          s.dead - {x})
  }

  /** The fields when n is entered below p. */
  ghost function Born(s: Shape, n: UserNode, p: UserNode?): Shape
    requires p != null ==> p.id in s.below
  {
    Shape(s.parent[n.id := p], (if p == null then s.below else s.below[p.id := s.below[p.id] + {n}])[n.id := {}],
      s.dead)
  }

  lemma BornOther(nodes: Nodes, s: Shape, n: UserNode, p: UserNode?, i: nat)
    requires ShapeOk(nodes, s) && n.id !in nodes && i in nodes
    requires if p == null then nodes == map[] else Has(nodes, p) && p.rank < n.rank
    ensures NodeOk(nodes[n.id := n], Born(s, n, p), i)
  {
    assert NodeOk(nodes, s, i);
  }

  lemma BornNew(nodes: Nodes, s: Shape, n: UserNode, p: UserNode?)
    requires ShapeOk(nodes, s) && n.id !in nodes
    requires if p == null then nodes == map[] else Has(nodes, p) && p.rank < n.rank
    ensures NodeOk(nodes[n.id := n], Born(s, n, p), n.id)
  {
  }

  lemma BornOk(nodes: Nodes, s: Shape, n: UserNode, p: UserNode?)
    requires ShapeOk(nodes, s) && n.id !in nodes
    requires if p == null then nodes == map[] else Has(nodes, p) && p.rank < n.rank
    ensures ShapeOk(nodes[n.id := n], Born(s, n, p))
  {
    hide NodeOk;
    var more, s' := nodes[n.id := n], Born(s, n, p);
    forall i | i in more ensures NodeOk(more, s', i) {
      if i != n.id { BornOther(nodes, s, n, p, i); } else { BornNew(nodes, s, n, p); }
    }
  }

  lemma DeadOk(nodes: Nodes, s: Shape, x: nat)
    requires ShapeOk(nodes, s) && Branches(s, None) && x in nodes
    ensures ShapeOk(nodes, s.(dead := s.dead + {x})) && Branches(s.(dead := s.dead + {x}), Some(x))
  {
    forall i | i in nodes ensures NodeOk(nodes, s.(dead := s.dead + {x}), i) { assert NodeOk(nodes, s, i); }
  }

  lemma FieldsOf(nodes: Nodes, n: UserNode)
    requires Linked(nodes) && Has(nodes, n)
    ensures var s := ShapeOf(nodes);
      && s.parent.Keys == s.below.Keys == nodes.Keys && (n.id in s.dead <==> n.zombieNode)
      && s.below[n.id] == n.descendants && s.parent[n.id] == n.parent
  {
  }

  lemma LivingBranches(s: Shape, x: nat)
    requires Branches(s, Some(x)) && x !in s.dead
    ensures Branches(s, None)
  {
  }

  lemma EnoughBranches(s: Shape, x: nat)
    requires Branches(s, Some(x)) && x in s.below && |s.below[x]| >= 2
    ensures Branches(s, None)
  {
  }

  lemma NodesLess(nodes: Nodes, s: Shape, n: UserNode)
    requires ShapeOk(nodes, s) && Has(nodes, n)
    ensures |nodes - {n.id}| < |nodes| && (nodes - {n.id}).Keys == nodes.Keys - {n.id}
  {
    assert (nodes - {n.id}).Keys == nodes.Keys - {n.id};
    assert nodes.Keys == (nodes - {n.id}).Keys + {n.id};
  }

  lemma DeadIsZombie(nodes: Nodes, n: UserNode)
    requires Has(nodes, n)
    ensures n.id in ShapeOf(nodes).dead <==> n.zombieNode
  {
  }

  /** A node with a parent or a descendant is not alone. */
  lemma NotAlone(nodes: Nodes, s: Shape, x: nat)
    requires ShapeOk(nodes, s) && x in nodes && (s.parent[x] != null || s.below[x] != {})
    ensures |nodes| > 1
  {
    assert NodeOk(nodes, s, x);
    var j;
    if s.parent[x] != null { j := s.parent[x].id; } else {
      var m :| m in s.below[x];
      j := m.id;
      assert NodeOk(nodes, s, j);
    }
    assert j != x;
    assert |{x, j}| == 2;
    SubsetSize({x, j}, nodes.Keys);
  }

  /** A root without descendants is alone. */
  lemma Alone(nodes: Nodes, s: Shape, root: nat)
    requires ShapeOk(nodes, s) && root in nodes && s.parent[root] == null && s.below[root] == {}
    ensures |nodes| == 1
  {
    forall i | i in nodes ensures i == root { if i != root { RootHasBelow(nodes, s, root, i); } }
    assert nodes.Keys == {root};
    assert |nodes| == |nodes.Keys|;
  }

  lemma {:induction false} RootHasBelow(nodes: Nodes, s: Shape, root: nat, i: nat)
    requires ShapeOk(nodes, s) && root in nodes && s.parent[root] == null && i in nodes && i != root
    ensures s.below[root] != {}
    decreases nodes[i].rank
  {
    assert NodeOk(nodes, s, i);
    var p := s.parent[i];
    if p != null && p.id != root { RootHasBelow(nodes, s, root, p.id); }
  }

  lemma FewChildren(nodes: Nodes, s: Shape, x: nat)
    requires ShapeOk(nodes, s) && x in nodes && |s.below[x]| <= 1
    ensures |Children(TreeOf(s), x)| <= 1
  {
    var all := Children(TreeOf(s), x);
    if c :| c in all {
      forall d | d in all ensures d == c {
        assert NodeOk(nodes, s, c) && NodeOk(nodes, s, d);
        if nodes[c] != nodes[d] { TwoMembers(s.below[x], nodes[c], nodes[d]); }
      }
      assert all == {c};
    } else {
      assert all == {};
    }
  }

  lemma TwoMembers(s: set<UserNode>, a: UserNode, b: UserNode)
    requires a in s && b in s && a != b
    ensures |s| >= 2
  {
    assert |s| == |s - {a}| + 1;
    assert |s - {a}| == |s - {a} - {b}| + 1;
  }

  lemma OneLess(s: set<UserNode>, x: UserNode)
    requires |s| >= 2
    ensures s - {x} != {}
  {
    assert |s - {x}| >= |s| - 1;
  }

  lemma OnlyOne(s: set<UserNode>, x: UserNode)
    requires |s| <= 1 && x in s
    ensures s == {x}
  {
    assert |s - {x}| == 0;
  }

  lemma RanksOk(nodes: Nodes, s: Shape)
    requires ShapeOk(nodes, s)
    ensures Ranked(TreeOf(s), Ranks(nodes))
  {
    forall c, a | Edge(TreeOf(s), c, a) ensures a in nodes && nodes[a].rank < nodes[c].rank {
      assert NodeOk(nodes, s, c);
    }
  }

  /** Taking out a dead node with at most one descendant is pruning. */
  lemma RemovedPrunes(nodes: Nodes, s: Shape, n: UserNode)
    requires ShapeOk(nodes, s) && Has(nodes, n) && n.id in s.dead && |s.below[n.id]| <= 1
    ensures Pruned(TreeOf(s), TreeOf(Removed(s, n)))
  {
    hide Pruned, Above, Lowest, Ranks, Ranked, Children, Remove, Removed, NodeOk;
    var t := TreeOf(s);
    FewChildren(nodes, s, n.id);
    RanksOk(nodes, s);
    RemovedTree(nodes, s, n);
    RemoveIsPruning(t, Ranks(nodes), n.id);
  }

  lemma RemovedTree(nodes: Nodes, s: Shape, n: UserNode)
    requires ShapeOk(nodes, s) && Has(nodes, n)
    ensures TreeOf(Removed(s, n)) == Remove(TreeOf(s), n.id)
  {
    hide NodeOk;
    var t, t' := Remove(TreeOf(s), n.id), TreeOf(Removed(s, n));
    forall i | i in nodes && i != n.id ensures t'.parent[i] == t.parent[i] { RemovedParent(nodes, s, n, i); }
    assert t'.parent == t.parent;
  }

  lemma RemovedParent(nodes: Nodes, s: Shape, n: UserNode, i: nat)
    requires ShapeOk(nodes, s) && Has(nodes, n) && i in nodes && i != n.id
    ensures TreeOf(Removed(s, n)).parent[i] == Remove(TreeOf(s), n.id).parent[i]
  {
    assert NodeOk(nodes, s, i) && NodeOk(nodes, s, n.id);
  }

  /** The nodes that remain are linked, and only the next one to look at may be useless. */
  lemma RemovedOk(nodes: Nodes, s: Shape, n: UserNode, next: UserNode)
    requires ShapeOk(nodes, s) && Has(nodes, n) && |s.below[n.id]| <= 1 && Branches(s, Some(n.id))
    requires if s.parent[n.id] != null then next == s.parent[n.id] else next in s.below[n.id]
    ensures ShapeOk(nodes - {n.id}, Removed(s, n)) && Has(nodes - {n.id}, next)
    ensures Branches(Removed(s, n), Some(next.id))
    ensures next.id in s.dead ==> Removed(s, n).below[next.id] != {}
  {
    hide NodeOk;
    var x, less, s' := n.id, nodes - {n.id}, Removed(s, n);
    NextThere(nodes, s, n, next);
    forall i | i in less
      ensures NodeOk(less, s', i)
      ensures (s'.parent[i] == null ==> s.parent[i] == null || (s.parent[x] == null && i == next.id))
    {
      RemovedNode(nodes, s, n, next, i);
    }
    if next.id in s.dead {
      assert |s.below[next.id]| >= 2;
      OneLess(s.below[next.id], n);
    }
  }

  lemma NextThere(nodes: Nodes, s: Shape, n: UserNode, next: UserNode)
    requires ShapeOk(nodes, s) && Has(nodes, n)
    requires if s.parent[n.id] != null then next == s.parent[n.id] else next in s.below[n.id]
    ensures Has(nodes, next) && next != n
  {
    assert NodeOk(nodes, s, n.id);
    if next in s.below[n.id] { assert NodeOk(nodes, s, next.id); }
  }

  lemma RemovedNode(nodes: Nodes, s: Shape, n: UserNode, next: UserNode, i: nat)
    requires ShapeOk(nodes, s) && Has(nodes, n) && |s.below[n.id]| <= 1 && i in nodes && i != n.id
    requires if s.parent[n.id] != null then next == s.parent[n.id] else next in s.below[n.id]
    ensures NodeOk(nodes - {n.id}, Removed(s, n), i)
    ensures Removed(s, n).parent[i] == null ==> s.parent[i] == null || (s.parent[n.id] == null && i == next.id)
  {
    assert NodeOk(nodes, s, n.id) && NodeOk(nodes, s, i);
    assert forall d | d in s.below[n.id] :: Has(nodes, d);
    hide ShapeOk;
    if s.parent[i] == n { OnlyOne(s.below[n.id], nodes[i]); }
  }

  /** A way up from n to the top that does not meet the node to avoid. */
  ghost predicate Avoiding(t: Tree, p: seq<nat>, n: nat, top: nat, avoid: UserNode?) {
    Path(t, p, n, top) && (avoid != null ==> avoid.id !in p)
  }

  ghost predicate Listed(nodes: Nodes, t: Tree, top: nat, avoid: UserNode?, n: UserNode)
    reads n
  {
    Has(nodes, n) && !n.zombieNode && exists p: seq<nat> :: Avoiding(t, p, n.id, top, avoid)
  }

  ghost predicate ListedBelow(nodes: Nodes, t: Tree, tops: set<UserNode>, avoid: UserNode?, n: UserNode)
    reads n
  {
    exists c :: c in tops && Listed(nodes, t, c.id, avoid, n)
  }

  lemma ListedIsThere(nodes: Nodes, t: Tree, top: nat, avoid: UserNode?, n: UserNode)
    requires Listed(nodes, t, top, avoid, n)
    ensures Has(nodes, n)
  {
  }

  lemma NoneBelow(nodes: Nodes, t: Tree, avoid: UserNode?)
    ensures forall n :: !ListedBelow(nodes, t, {}, avoid, n)
  {
  }

  lemma ListedMore(nodes: Nodes, t: Tree, tops: set<UserNode>, x: UserNode, avoid: UserNode?, n: UserNode)
    ensures ListedBelow(nodes, t, tops + {x}, avoid, n)
      <==> ListedBelow(nodes, t, tops, avoid, n) || Listed(nodes, t, x.id, avoid, n)
  {
    hide Listed;
    if Listed(nodes, t, x.id, avoid, n) { assert x in tops + {x}; }
    if ListedBelow(nodes, t, tops, avoid, n) {
      var c :| c in tops && Listed(nodes, t, c.id, avoid, n);
      assert c in tops + {x};
    }
  }

  ghost predicate Distinct(a: seq<UserNode>) {
    forall i, j | 0 <= i < j < |a| :: a[i] != a[j]
  }

  lemma DistinctAppend(a: seq<UserNode>, b: seq<UserNode>)
    requires Distinct(a) && Distinct(b) && forall n | n in b :: n !in a
    ensures Distinct(a + b)
  {
    forall i, j | 0 <= i < j < |a + b| ensures (a + b)[i] != (a + b)[j] {
      if i < |a| <= j { assert b[j - |a|] in b && a[i] in a; }
    }
  }

  lemma NotPast(nodes: Nodes, t: Tree, top: nat, avoid: UserNode?, n: UserNode)
    requires avoid != null && avoid.id == top
    ensures !Listed(nodes, t, top, avoid, n)
  {
    forall p: seq<nat> | Path(t, p, n.id, top) ensures avoid.id in p { assert p[|p| - 1] == top; }
  }

  lemma ChildFacts(nodes: Nodes, s: Shape, n: UserNode, c: UserNode)
    requires ShapeOk(nodes, s) && Has(nodes, n) && c in s.below[n.id]
    ensures Has(nodes, c) && c.rank > n.rank && Edge(TreeOf(s), c.id, n.id) && c != n
  {
    assert NodeOk(nodes, s, n.id);
    assert NodeOk(nodes, s, c.id);
  }

  /** The way up from one node to another is unique. */
  lemma {:induction false} OnePath(t: Tree, rank: map<nat, nat>, p: seq<nat>, q: seq<nat>, b: nat, a: nat)
    requires Ranked(t, rank) && Path(t, p, b, a) && Path(t, q, b, a)
    ensures p == q
    decreases |p|
  {
    if |p| == 1 && |q| == 1 {
    } else if |p| == 1 || |q| == 1 {
      var r := if |p| == 1 then q else p;
      assert Edge(t, r[0], r[0 + 1]);
      assert Path(t, r[1..], r[1], a);
      PathRank(t, rank, r[1..], r[1], a);
    } else {
      assert Edge(t, p[0], p[0 + 1]) && Edge(t, q[0], q[0 + 1]);
      assert Path(t, p[1..], p[1], a) && Path(t, q[1..], p[1], a);
      OnePath(t, rank, p[1..], q[1..], p[1], a);
      assert p == [p[0]] + p[1..] && q == [q[0]] + q[1..];
    }
  }

  /** Nodes listed below different children are different, and none is the parent. */
  lemma ApartBelow(nodes: Nodes, s: Shape, top: UserNode, seen: set<UserNode>, x: UserNode, avoid: UserNode?,
      n: UserNode)
    requires ShapeOk(nodes, s) && Has(nodes, top) && seen <= s.below[top.id] && x in s.below[top.id] && x !in seen
    requires Listed(nodes, TreeOf(s), x.id, avoid, n)
    ensures n != top && !ListedBelow(nodes, TreeOf(s), seen, avoid, n)
  {
    var t := TreeOf(s);
    RanksOk(nodes, s);
    ChildFacts(nodes, s, top, x);
    hide ShapeOk, TreeOf;
    var p: seq<nat> :| Avoiding(t, p, n.id, x.id, avoid);
    PathRank(t, Ranks(nodes), p, n.id, x.id);
    if c :| c in seen && Listed(nodes, t, c.id, avoid, n) {
      var q: seq<nat> :| Avoiding(t, q, n.id, c.id, avoid);
      ChildFacts(nodes, s, top, c);
      LongerPath(t, p, n.id, x.id, top.id);
      LongerPath(t, q, n.id, c.id, top.id);
      OnePath(t, Ranks(nodes), p + [top.id], q + [top.id], n.id, top.id);
      assert (p + [top.id])[|p| - 1] == (q + [top.id])[|q| - 1];
    }
  }

  lemma LongerPath(t: Tree, p: seq<nat>, b: nat, c: nat, a: nat)
    requires Path(t, p, b, c) && Edge(t, c, a) && a in t.parent
    ensures Path(t, p + [a], b, a)
  {
    var r := p + [a];
    forall i | 0 <= i < |r| - 1 ensures Edge(t, r[i], r[i + 1]) {
      if i < |p| - 1 { assert Edge(t, p[i], p[i + 1]); }
    }
  }

  /** What is listed from a node is the node itself, and what is listed from its children. */
  lemma ListedSplit(nodes: Nodes, s: Shape, top: UserNode, avoid: UserNode?, n: UserNode)
    requires ShapeOk(nodes, s) && Has(nodes, top) && top != avoid && (avoid != null ==> Has(nodes, avoid))
    ensures Listed(nodes, TreeOf(s), top.id, avoid, n) <==>
      (n == top && !top.zombieNode) || ListedBelow(nodes, TreeOf(s), s.below[top.id], avoid, n)
  {
    var t := TreeOf(s);
    if p: seq<nat> :| Has(nodes, n) && !n.zombieNode && Avoiding(t, p, n.id, top.id, avoid) {
      if |p| > 1 {
        var k := |p| - 2;
        assert Edge(t, p[k], p[k + 1]);
        var c := nodes[p[k]];
        assert NodeOk(nodes, s, p[k]);
        assert Path(t, p[..k + 1], n.id, p[k]);
        assert Avoiding(t, p[..k + 1], n.id, c.id, avoid);
        assert Listed(nodes, t, c.id, avoid, n);
      }
    }
    if n == top && !top.zombieNode {
      assert Avoiding(t, [n.id], n.id, top.id, avoid);
    }
    if c :| c in s.below[top.id] && Listed(nodes, t, c.id, avoid, n) {
      var p: seq<nat> :| Avoiding(t, p, n.id, c.id, avoid);
      ChildFacts(nodes, s, top, c);
      LongerPath(t, p, n.id, c.id, top.id);
      assert Avoiding(t, p + [top.id], n.id, top.id, avoid);
    }
  }

  /** Only one living node is gone, and the survivors are related as before. */
  ghost predicate KinshipKept(t: Tree, t': Tree) {
    && (forall a, b | a in t'.parent && b in t'.parent :: Above(t', a, b) <==> Above(t, a, b))
    && (forall w, u, v | u in Living(t') && v in Living(t') :: Lowest(t', w, u, v) <==> Lowest(t, w, u, v))
  }

  lemma DeathPrunes(t0: Tree, t1: Tree, t2: Tree, x: nat)
    requires t1 == Tree(t0.parent, t0.zombies + {x}) && Pruned(t1, t2) && x in t0.parent
    ensures Living(t2) == Living(t0) - {x} && KinshipKept(t0, t2)
  {
    forall a, b ensures Above(t1, a, b) <==> Above(t0, a, b) { SameParents(t0, t1, a, b); }
    hide Above;
  }

  lemma SameParents(t0: Tree, t1: Tree, a: nat, b: nat)
    requires t1.parent == t0.parent
    ensures Above(t1, a, b) <==> Above(t0, a, b)
  {
    if Above(t1, a, b) {
      var p :| Path(t1, p, b, a);
      assert forall i | 0 <= i < |p| - 1 :: Edge(t1, p[i], p[i + 1]) ==> Edge(t0, p[i], p[i + 1]);
      assert Path(t0, p, b, a);
    }
    if Above(t0, a, b) {
      var p :| Path(t0, p, b, a);
      assert forall i | 0 <= i < |p| - 1 :: Edge(t0, p[i], p[i + 1]) ==> Edge(t1, p[i], p[i + 1]);
      assert Path(t1, p, b, a);
    }
  }
}
