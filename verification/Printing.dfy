/**
 The console form of an AST graph: names for the nodes that are referred to again, brackets
 for ordinary nodes, braces for basic blocks.
 */
module Printing {
  import opened Tags

  const MAX_FIELDS: nat := 40

  /** The name of a tag and its number of AST pointers; a tag is its index in the table. */
  datatype TagInfo = TagInfo(name: string, fields: nat)

  type Table = seq<TagInfo>

  /** A node's fields; for a basic block, the elements of its vector. `Number` is the object
      an imv points to. */
  datatype Cell = Ast(tag: nat, fields: seq<nat>) | Number(value: nat)

  /** Nodes by address; 0 is null. */
  type Graph = map<nat, Cell>

  predicate IsSpecial(c: char) {
    c == '[' || c == ']' || c == '{' || c == '}'
  }

  predicate IsSpace(c: char) {
    c == '\n' || c == '\t' || c == '\r' || c == ' '
  }

  predicate IsWord(w: string) {
    |w| > 0 && forall i | 0 <= i < |w| :: !IsSpecial(w[i]) && !IsSpace(w[i])
  }

  ghost predicate TableOk(table: Table) {
    && |table| > BASIC_BLOCK && table[IMV].fields == 0 && table[BASIC_BLOCK].fields == 0
    && (forall i | 0 <= i < |table| :: table[i].fields <= MAX_FIELDS && IsWord(table[i].name))
    && (forall i, j | 0 <= i < j < |table| :: table[i].name != table[j].name)
  }

  /** The AST pointers in a node. An imv's field is not one. */
  function Children(c: Cell): seq<nat> {
    if c.Ast? && c.tag != IMV then c.fields else []
  }

  ghost predicate GraphOk(table: Table, g: Graph) {
    && 0 !in g
    && forall p | p in g ::
         && g[p].Ast? && g[p].tag < |table|
         && (g[p].tag == IMV ==> |g[p].fields| == 1)
         && (g[p].tag != IMV && g[p].tag != BASIC_BLOCK ==> |g[p].fields| == table[g[p].tag].fields)
         && Closed(g, g[p])
  }

  ghost predicate Closed(g: Graph, c: Cell) {
    forall f | f in Children(c) :: f == 0 || f in g
  }

  // ---------------------------------------------------------------- names

  const HEX: string := "0123456789abcdef"

  function Hex(n: nat): (s: string)
    ensures |s| > 0 && forall i | 0 <= i < |s| :: s[i] in HEX
  {
    (if n < 16 then [] else Hex(n / 16)) + [HEX[n % 16]]
  }

  /** An address as a stream shows it; null is 0. */
  function NameOf(p: nat): string {
    if p == 0 then "0" else "0x" + Hex(p)
  }

  lemma HexDigit(a: nat, b: nat)
    requires a < 16 && b < 16 && HEX[a] == HEX[b]
    ensures a == b
  {
  }

  lemma {:induction false} HexInjective(n: nat, m: nat)
    requires Hex(n) == Hex(m)
    ensures n == m
  {
    var s, t := Hex(n), Hex(m);
    assert s[|s| - 1] == HEX[n % 16] && t[|t| - 1] == HEX[m % 16];
    HexDigit(n % 16, m % 16);
    if n >= 16 && m >= 16 {
      assert s[..|s| - 1] == Hex(n / 16) && t[..|t| - 1] == Hex(m / 16);
      HexInjective(n / 16, m / 16);
    } else {
      assert |s| == 1 <==> n < 16;
      assert |t| == 1 <==> m < 16;
    }
  }

  lemma NamesDiffer(p: nat, q: nat)
    requires NameOf(p) == NameOf(q)
    ensures p == q
  {
    if p != 0 && q != 0 {
      assert NameOf(p)[2..] == Hex(p) && NameOf(q)[2..] == Hex(q);
      HexInjective(p, q);
    }
  }

  lemma NameIsWord(p: nat)
    ensures IsWord(NameOf(p)) && NameOf(p)[0] == '0'
  {
    var s := NameOf(p);
    forall i | 0 <= i < |s| ensures !IsSpecial(s[i]) && !IsSpace(s[i]) {
      if p != 0 && i >= 2 { assert s[i] == Hex(p)[i - 2]; }
    }
  }

  // ---------------------------------------------------------------- which nodes need a name

  datatype Refs = Refs(seen: set<nat>, again: set<nat>)

  /** `determine_references`: the nodes that are come across again. Null counts as seen. */
  function Determine(table: Table, g: Graph, r: Refs, p: nat): (r': Refs)
    requires GraphOk(table, g) && 0 in r.seen && (p == 0 || p in g)
    ensures r.seen <= r'.seen && r.again <= r'.again
    decreases g.Keys - r.seen, 1, 0
  {
    if p in r.seen then r.(again := r.again + {p})
    else
      assert Closed(g, g[p]);
      DetermineAll(table, g, Refs(r.seen + {p}, r.again), Children(g[p]))
  }

  function DetermineAll(table: Table, g: Graph, r: Refs, fields: seq<nat>): (r': Refs)
    requires GraphOk(table, g) && 0 in r.seen && forall f | f in fields :: f == 0 || f in g
    ensures r.seen <= r'.seen && r.again <= r'.again
    decreases g.Keys - r.seen, 2, |fields|
  {
    if fields == [] then r else DetermineAll(table, g, Determine(table, g, r, fields[0]), fields[1..])
  }

  // ---------------------------------------------------------------- the text

  datatype Text = Text(text: string, seen: set<nat>)

  /** Whether a basic block is put in braces: not at the top, and not when it is one unnamed
      element. */
  predicate Braced(refs: set<nat>, p: nat, size: nat, allowed: bool) {
    (p in refs || size > 1) && allowed
  }

  function Prefix(refs: set<nat>, p: nat): string {
    if p in refs then "_" + NameOf(p) else ""
  }

  /** `output_output`. */
  function Print(table: Table, g: Graph, refs: set<nat>, seen: set<nat>, p: nat, allowed: bool): (t: Text)
    requires GraphOk(table, g) && 0 in seen && (p == 0 || p in g)
    ensures seen <= t.seen
    decreases g.Keys - seen, 1, 0
  {
    if p in seen then Text(NameOf(p), seen)
    else
      assert Closed(g, g[p]);
      var c, now := g[p], seen + {p};
      if c.tag == BASIC_BLOCK then
        var t := PrintAll(table, g, refs, now, c.fields, "");
        Text(Prefix(refs, p) + BlockText(Braced(refs, p, |c.fields|, allowed), |c.fields|, t.text), t.seen)
      else if c.tag == IMV then
        Text(Prefix(refs, p) + NodeText(table[IMV].name, " " + NameOf(c.fields[0])), now)
      else
        var t := PrintAll(table, g, refs, now, c.fields, " ");
        Text(Prefix(refs, p) + NodeText(table[c.tag].name, t.text), t.seen)
  }

  /** An empty block is shown as null, and its brace is never closed. */
  function BlockText(braced: bool, size: nat, elements: string): string {
    var open := if braced then "{" else "";
    if size == 0 then open + "0" else open + elements + (if braced then "}" else "")
  }

  function NodeText(name: string, fields: string): string {
    "[" + name + fields + "]"
  }

  /** Nodes in a row, the first after the given separator and the others after a space. */
  function PrintAll(table: Table, g: Graph, refs: set<nat>, seen: set<nat>, fields: seq<nat>, before: string): (t: Text)
    requires GraphOk(table, g) && 0 in seen && forall f | f in fields :: f == 0 || f in g
    ensures seen <= t.seen
    decreases g.Keys - seen, 2, |fields|
  {
    if fields == [] then Text("", seen)
    else
      var t := Print(table, g, refs, seen, fields[0], true);
      var rest := PrintAll(table, g, refs, t.seen, fields[1..], " ");
      Text(before + t.text + rest.text, rest.seen)
  }

  /** The whole text of a graph from a root. */
  function Printed(table: Table, g: Graph, root: nat): string
    requires GraphOk(table, g) && (root == 0 || root in g)
  {
    Print(table, g, Determine(table, g, Refs({0}, {}), root).again, {0}, root, false).text
  }

  lemma {:induction false} PrintAllMore(table: Table, g: Graph, refs: set<nat>, seen: set<nat>, fields: seq<nat>,
      f: nat, before: string)
    requires GraphOk(table, g) && 0 in seen && (forall x | x in fields :: x == 0 || x in g) && (f == 0 || f in g)
    ensures var t := PrintAll(table, g, refs, seen, fields, before);
      var last := Print(table, g, refs, t.seen, f, true);
      PrintAll(table, g, refs, seen, fields + [f], before) ==
        Text(t.text + (if fields == [] then before else " ") + last.text, last.seen)
    decreases |fields|
  {
    hide Print, GraphOk;
    if fields == [] {
      assert ([] + [f])[1..] == [];
    } else {
      assert (fields + [f])[1..] == fields[1..] + [f];
      PrintAllMore(table, g, refs, Print(table, g, refs, seen, fields[0], true).seen, fields[1..], f, " ");
    }
  }

  lemma {:induction false} DetermineAllMore(table: Table, g: Graph, r: Refs, fields: seq<nat>, f: nat)
    requires GraphOk(table, g) && 0 in r.seen && (forall x | x in fields :: x == 0 || x in g) && (f == 0 || f in g)
    ensures DetermineAll(table, g, r, fields + [f]) == Determine(table, g, DetermineAll(table, g, r, fields), f)
    decreases |fields|
  {
    if fields == [] {
      assert ([] + [f])[1..] == [];
    } else {
      assert (fields + [f])[1..] == fields[1..] + [f];
      DetermineAllMore(table, g, Determine(table, g, r, fields[0]), fields[1..], f);
    }
  }

  /** `output_AST_struct`: prints a graph in two passes. */
  class AstPrinter {
    const table: Table
    const g: Graph
    var astList: set<nat>
    var referenceNecessary: set<nat>
    var output: string

    constructor (table: Table, g: Graph, target: nat)
      requires GraphOk(table, g) && (target == 0 || target in g)
      ensures output == Printed(table, g, target)
    {
      this.table, this.g := table, g;
      astList, referenceNecessary, output := {0}, {}, "";
      new;
      DetermineReferences(target);
      astList := {0};
      OutputOutput(target, false);
      assert "" + output == output;
    }

    method DetermineReferences(target: nat)
      requires GraphOk(table, g) && 0 in astList && (target == 0 || target in g)
      modifies this`astList, this`referenceNecessary
      ensures Refs(astList, referenceNecessary) ==
        Determine(table, g, Refs(old(astList), old(referenceNecessary)), target)
      decreases g.Keys - astList
    {
      hide GraphOk;
      if target in astList {
        referenceNecessary := referenceNecessary + {target};
        return;
      }
      assert forall f | f in Children(g[target]) :: f == 0 || f in g by { ChildrenIn(table, g, target); }
      astList := astList + {target};
      ghost var r := Refs(astList, referenceNecessary);
      var children := Children(g[target]);
      for i := 0 to |children|
        invariant r.seen <= astList
        invariant Refs(astList, referenceNecessary) == DetermineAll(table, g, r, children[..i])
      {
        DetermineAllMore(table, g, r, children[..i], children[i]);
        assert children[..i + 1] == children[..i] + [children[i]];
        DetermineReferences(children[i]);
      }
      assert children[..|children|] == children;
    }

    method OutputOutput(target: nat, bracesAllowed: bool)
      requires GraphOk(table, g) && 0 in astList && (target == 0 || target in g)
      modifies this`astList, this`output
      ensures var t := Print(table, g, referenceNecessary, old(astList), target, bracesAllowed);
        output == old(output) + t.text && astList == t.seen
      decreases g.Keys - astList, 1
    {
      if target in astList {
        output := output + NameOf(target);
        return;
      }
      ChildrenIn(table, g, target);
      ghost var text := output;
      astList := astList + {target};
      var printedReference := target in referenceNecessary;
      if printedReference { output := output + ("_" + NameOf(target)); }
      ghost var named := output;
      assert named == text + Prefix(referenceNecessary, target);
      hide GraphOk, PrintAll, NameOf, Prefix, BlockText, NodeText;
      var c := g[target];
      if c.tag == BASIC_BLOCK {
        OutputBlock(c.fields, (printedReference || |c.fields| > 1) && bracesAllowed);
      } else {
        OutputNode(c);
      }
      ghost var added := output[|named|..];
      Associate(text, Prefix(referenceNecessary, target), added);
    }

    method OutputBlock(elements: seq<nat>, braced: bool)
      requires GraphOk(table, g) && 0 in astList && forall f | f in elements :: f == 0 || f in g
      modifies this`astList, this`output
      ensures var t := PrintAll(table, g, referenceNecessary, old(astList), elements, "");
        astList == t.seen && output == old(output) + BlockText(braced, |elements|, t.text)
      decreases g.Keys - astList, 3
    {
      hide GraphOk, PrintAll;
      ghost var text, open := output, if braced then "{" else "";
      ghost var t := PrintAll(table, g, referenceNecessary, astList, elements, "");
      if braced { output := output + "{"; }
      assert output == text + open;
      if elements == [] {
        output := output + "0";
        Associate(text, open, "0");
        NothingPrinted(table, g, referenceNecessary, astList);
        return;
      }
      OutputRow(elements, "");
      Associate(text, open, t.text);
      if braced { output := output + "}"; }
    }

    method OutputNode(c: Cell)
      requires GraphOk(table, g) && 0 in astList && c.Ast? && c.tag != BASIC_BLOCK
      requires c.tag < |table| && (c.tag == IMV ==> |c.fields| == 1) && forall f | f in Children(c) :: f == 0 || f in g
      modifies this`astList, this`output
      ensures c.tag == IMV ==>
        astList == old(astList) && output == old(output) + NodeText(table[IMV].name, " " + NameOf(c.fields[0]))
      ensures c.tag != IMV ==>
        var t := PrintAll(table, g, referenceNecessary, old(astList), c.fields, " ");
        astList == t.seen && output == old(output) + NodeText(table[c.tag].name, t.text)
      decreases g.Keys - astList, 3
    {
      hide GraphOk, PrintAll, NameOf;
      output := output + "[" + table[c.tag].name;
      if c.tag == IMV {
        output := output + " " + NameOf(c.fields[0]);
      } else {
        OutputRow(c.fields, " ");
      }
      output := output + "]";
    }

    /** The loops over a block's elements and over a node's fields. */
    method OutputRow(fields: seq<nat>, before: string)
      requires GraphOk(table, g) && 0 in astList && forall f | f in fields :: f == 0 || f in g
      modifies this`astList, this`output
      ensures var t := PrintAll(table, g, referenceNecessary, old(astList), fields, before);
        output == old(output) + t.text && astList == t.seen
      decreases g.Keys - astList, 2
    {
      hide GraphOk, Print;
      ghost var seen, text := astList, output;
      for i := 0 to |fields|
        invariant seen <= astList
        invariant var t := PrintAll(table, g, referenceNecessary, seen, fields[..i], before);
          output == text + t.text && astList == t.seen
      {
        PrintAllMore(table, g, referenceNecessary, seen, fields[..i], fields[i], before);
        assert fields[..i + 1] == fields[..i] + [fields[i]];
        output := output + (if i == 0 then before else " ");
        OutputOutput(fields[i], true);
      }
      assert fields[..|fields|] == fields;
    }
  }

  lemma NothingPrinted(table: Table, g: Graph, refs: set<nat>, seen: set<nat>)
    requires GraphOk(table, g) && 0 in seen
    ensures PrintAll(table, g, refs, seen, [], "") == Text("", seen)
  {
  }

  lemma Associate(a: string, b: string, c: string)
    ensures a + b + c == a + (b + c)
  {
  }

  lemma ChildrenIn(table: Table, g: Graph, p: nat)
    requires GraphOk(table, g) && p in g
    ensures forall f | f in Children(g[p]) :: f == 0 || f in g
  {
    assert Closed(g, g[p]);
  }
}
