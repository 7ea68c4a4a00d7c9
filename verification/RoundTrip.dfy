/**
 Printing and then reading gives an isomorphic graph, with sharing and cycles, for a non-empty
 root basic block over ordinary nodes, null, and nested basic blocks that show as such, when
 no basic block is come across again inside its own braces.
 */
module RoundTrip {
  import opened Mapping
  import opened Options
  import opened Printing
  import opened Tags
  import opened Reading

  /** Nodes that are neither an imv nor a basic block. */
  predicate Ordinary(c: Cell) {
    c.Ast? && c.tag != IMV && c.tag != BASIC_BLOCK
  }

  predicate IsBlock(c: Cell) {
    c.Ast? && c.tag == BASIC_BLOCK
  }

  /** Nodes that are shown as what they are: a nested basic block needs its braces, which it
      gets if it has a name or more than one element. */
  predicate Shown(refs: set<nat>, p: nat, c: Cell) {
    Ordinary(c) || (IsBlock(c) && |c.fields| > (if p in refs then 0 else 1))
  }

  /** Every node that is printed from p on is shown as what it is. */
  ghost predicate Shows(table: Table, g: Graph, refs: set<nat>, seen: set<nat>, p: nat)
    requires GraphOk(table, g) && 0 in seen && (p == 0 || p in g)
    decreases g.Keys - seen, 1, 0
  {
    p in seen || (
      assert Closed(g, g[p]);
      Shown(refs, p, g[p]) && ShowsAll(table, g, refs, seen + {p}, Children(g[p])))
  }

  ghost predicate ShowsAll(table: Table, g: Graph, refs: set<nat>, seen: set<nat>, fields: seq<nat>)
    requires GraphOk(table, g) && 0 in seen && forall f | f in fields :: f == 0 || f in g
    decreases g.Keys - seen, 2, |fields|
  {
    fields == [] ||
    (Shows(table, g, refs, seen, fields[0])
      && ShowsAll(table, g, refs, Print(table, g, refs, seen, fields[0], true).seen, fields[1..]))
  }

  function Opened(g: Graph, p: nat, open: set<nat>): set<nat>
    requires p in g
  {
    if IsBlock(g[p]) then open + {p} else open
  }

  /** While p is printed, no basic block is come across again whose braces are open. */
  ghost predicate Clear(table: Table, g: Graph, refs: set<nat>, seen: set<nat>, p: nat, open: set<nat>)
    requires GraphOk(table, g) && 0 in seen && (p == 0 || p in g)
    decreases g.Keys - seen, 1, 0
  {
    if p in seen then p !in open
    else
      assert Closed(g, g[p]);
      ClearAll(table, g, refs, seen + {p}, Children(g[p]), Opened(g, p, open))
  }

  ghost predicate ClearAll(table: Table, g: Graph, refs: set<nat>, seen: set<nat>, fields: seq<nat>, open: set<nat>)
    requires GraphOk(table, g) && 0 in seen && forall f | f in fields :: f == 0 || f in g
    decreases g.Keys - seen, 2, |fields|
  {
    fields == [] ||
    (Clear(table, g, refs, seen, fields[0], open)
      && ClearAll(table, g, refs, Print(table, g, refs, seen, fields[0], true).seen, fields[1..], open))
  }

  /** The nodes that the printer comes across again from a root. */
  ghost function Refd(table: Table, g: Graph, root: nat): set<nat>
    requires GraphOk(table, g) && (root == 0 || root in g)
  {
    Determine(table, g, Refs({0}, {}), root).again
  }

  /** The graphs that come back: the root is a basic block with elements; all that is printed
      below is shown as what it is; and no basic block, the root included, is come across again
      inside its own braces. */
  ghost predicate Printable(table: Table, g: Graph, root: nat)
    requires GraphOk(table, g) && (root == 0 || root in g)
  {
    && root in g && IsBlock(g[root]) && g[root].fields != []
    && (assert Closed(g, g[root]);
        var refs := Refd(table, g, root);
        && ShowsAll(table, g, refs, {0, root}, g[root].fields)
        && ClearAll(table, g, refs, {0, root}, g[root].fields, {root}))
  }

  // ---------------------------------------------------------------- the printed tokens

  function Name(refs: set<nat>, p: nat): seq<string> {
    if p in refs then ["_" + NameOf(p)] else []
  }

  function TokensOf(table: Table, g: Graph, refs: set<nat>, seen: set<nat>, p: nat): seq<string>
    requires GraphOk(table, g) && 0 in seen && (p == 0 || p in g)
    decreases g.Keys - seen, 1, 0
  {
    if p in seen then [NameOf(p)]
    else
      assert Closed(g, g[p]);
      var c := g[p];
      if c.tag == IMV then Name(refs, p) + ["[", table[IMV].name] + [NameOf(c.fields[0])] + ["]"]
      else if c.tag == BASIC_BLOCK && c.fields == [] then Name(refs, p) + (if p in refs then ["{", "0"] else ["0"])
      else
        var row := TokensOfAll(table, g, refs, seen + {p}, c.fields);
        if c.tag != BASIC_BLOCK then Name(refs, p) + ["[", table[c.tag].name] + row + ["]"]
        else if Braced(refs, p, |c.fields|, true) then Name(refs, p) + ["{"] + row + ["}"]
        else row
  }

  function TokensOfAll(table: Table, g: Graph, refs: set<nat>, seen: set<nat>, fields: seq<nat>): seq<string>
    requires GraphOk(table, g) && 0 in seen && forall f | f in fields :: f == 0 || f in g
    decreases g.Keys - seen, 2, |fields|
  {
    if fields == [] then []
    else
      TokensOf(table, g, refs, seen, fields[0]) +
      TokensOfAll(table, g, refs, Print(table, g, refs, seen, fields[0], true).seen, fields[1..])
  }

  // ---------------------------------------------------------------- from characters to tokens

  lemma {:induction false} WordEnds(w: string, rest: string)
    requires IsWord(w) && Ends(rest)
    ensures WordLength(w + rest) == |w|
  {
    var s := w + rest;
    assert s[0] == w[0];
    if |w| == 1 {
      assert s[1..] == rest;
    } else {
      assert IsWord(w[1..]);
      assert s[1..] == w[1..] + rest;
      WordEnds(w[1..], rest);
    }
  }

  lemma WordToken(w: string, rest: string)
    requires IsWord(w) && Ends(rest)
    ensures Tokens(w + rest) == [w] + Tokens(rest)
  {
    var s := w + rest;
    WordEnds(w, rest);
    assert SkipSpaces(s) == s;
    assert s[..|w|] == w && s[|w|..] == rest;
  }

  lemma SpecialToken(c: char, rest: string)
    requires IsSpecial(c)
    ensures Tokens([c] + rest) == [[c]] + Tokens(rest)
  {
    var s := [c] + rest;
    assert SkipSpaces(s) == s && s[1..] == rest;
  }

  lemma SpaceToken(rest: string)
    ensures Tokens(" " + rest) == Tokens(rest)
  {
    var s := " " + rest;
    assert s[1..] == rest;
    assert SkipSpaces(s) == SkipSpaces(rest);
  }

  lemma NamedWord(p: nat)
    ensures IsWord("_" + NameOf(p))
  {
    NameIsWord(p);
    var w := "_" + NameOf(p);
    forall i | 0 <= i < |w| ensures !IsSpecial(w[i]) && !IsSpace(w[i]) {
      if i > 0 { assert w[i] == NameOf(p)[i - 1]; }
    }
  }

  lemma BracketTokens(name: string, row: string, rest: string, ts: seq<string>)
    requires IsWord(name) && Ends(row + ("]" + rest)) && Tokens(row + ("]" + rest)) == ts + Tokens("]" + rest)
    ensures Tokens(NodeText(name, row) + rest) == ["[", name] + ts + ["]"] + Tokens(rest)
  {
    hide Tokens, Ends, IsWord;
    var tail := row + ("]" + rest);
    SpecialToken(']', rest);
    WordToken(name, tail);
    SpecialToken('[', name + tail);
    assert NodeText(name, row) + rest == ['['] + (name + tail);
    assert ["[", name] + ts + ["]"] + Tokens(rest) == ["["] + ([name] + (ts + (["]"] + Tokens(rest))));
  }

  lemma NameTokens(refs: set<nat>, p: nat, node: string, rest: string, ts: seq<string>)
    requires Tokens(node + rest) == ts + Tokens(rest) && Ends(node + rest)
    ensures Tokens(Prefix(refs, p) + node + rest) == Name(refs, p) + ts + Tokens(rest)
  {
    hide Tokens, Ends, NameOf;
    if p in refs {
      NamedWord(p);
      WordToken("_" + NameOf(p), node + rest);
      assert Prefix(refs, p) + node + rest == ("_" + NameOf(p)) + (node + rest);
    } else {
      assert Prefix(refs, p) + node + rest == node + rest;
    }
  }

  lemma NodeTextEnds(name: string, row: string, rest: string)
    ensures Ends(NodeText(name, row) + rest)
  {
    assert (NodeText(name, row) + rest)[0] == '[';
  }

  lemma JoinTokens(before: string, a: string, b: string, rest: string, s: seq<string>, t: seq<string>)
    requires before == "" || before == " "
    requires Tokens(b + rest) == t + Tokens(rest) && Tokens(a + (b + rest)) == s + Tokens(b + rest)
    ensures Tokens(before + a + b + rest) == s + t + Tokens(rest)
  {
    hide Tokens;
    var x := a + (b + rest);
    assert before + a + b + rest == before + x;
    if before == " " { SpaceToken(x); } else { assert before + x == x; }
  }

  lemma BraceTokens(row: string, rest: string, ts: seq<string>)
    requires Tokens(row + ("}" + rest)) == ts + Tokens("}" + rest)
    ensures Tokens(("{" + row + "}") + rest) == ["{"] + ts + ["}"] + Tokens(rest)
  {
    hide Tokens;
    var tail := row + ("}" + rest);
    SpecialToken('}', rest);
    SpecialToken('{', tail);
    assert ("{" + row + "}") + rest == ['{'] + tail;
    assert ["{"] + ts + ["}"] + Tokens(rest) == ["{"] + (ts + (["}"] + Tokens(rest)));
  }

  lemma ImvTokens(v: nat, rest: string)
    ensures Tokens((" " + NameOf(v)) + ("]" + rest)) == [NameOf(v)] + Tokens("]" + rest)
    ensures Ends((" " + NameOf(v)) + ("]" + rest))
  {
    hide Tokens, NameOf;
    var tail := "]" + rest;
    NameIsWord(v);
    WordToken(NameOf(v), tail);
    SpaceToken(NameOf(v) + tail);
    assert (" " + NameOf(v)) + tail == " " + (NameOf(v) + tail);
  }

  lemma EmptyTokens(refs: set<nat>, p: nat, rest: string)
    requires Ends(rest)
    ensures Tokens(Prefix(refs, p) + (if p in refs then "{0" else "0") + rest) ==
      Name(refs, p) + (if p in refs then ["{", "0"] else ["0"]) + Tokens(rest)
  {
    hide Tokens, NameOf;
    assert IsWord("0");
    WordToken("0", rest);
    if p in refs {
      SpecialToken('{', "0" + rest);
      assert "{0" + rest == ['{'] + ("0" + rest);
      assert ["{"] + (["0"] + Tokens(rest)) == ["{", "0"] + Tokens(rest);
      NameTokens(refs, p, "{0", rest, ["{", "0"]);
    } else {
      assert Prefix(refs, p) + "0" + rest == "0" + rest;
      assert Name(refs, p) == [];
    }
  }

  /** The text of a node, cut into tokens. */
  lemma {:induction false} TextTokens(table: Table, g: Graph, refs: set<nat>, seen: set<nat>, p: nat, rest: string)
    requires TableOk(table) && GraphOk(table, g) && 0 in seen && (p == 0 || p in g) && Ends(rest)
    ensures Tokens(Print(table, g, refs, seen, p, true).text + rest) == TokensOf(table, g, refs, seen, p) + Tokens(rest)
    decreases g.Keys - seen, 1, 0
  {
    hide Tokens, NameOf, Prefix, NodeText, Name, PrintAll, TokensOfAll, Print, TokensOf;
    if p in seen {
      NameIsWord(p);
      WordToken(NameOf(p), rest);
      SeenText(table, g, refs, seen, p);
    } else {
      ChildrenIn(table, g, p);
      assert g[p].Ast? && g[p].tag < |table| && IsWord(table[g[p].tag].name);
      var tag, fields := g[p].tag, g[p].fields;
      var now, ts := seen + {p}, TokensOf(table, g, refs, seen, p);
      if tag == IMV {
        PrintImv(table, g, refs, seen, p);
        ImvTokens(fields[0], rest);
        hide *;
        NodeTokens(refs, p, table[tag].name, " " + NameOf(fields[0]), rest, [NameOf(fields[0])]);
      } else if tag == BASIC_BLOCK && fields == [] {
        PrintEmpty(table, g, refs, seen, p);
        hide *;
        EmptyTokens(refs, p, rest);
      } else if tag != BASIC_BLOCK {
        PrintNode(table, g, refs, seen, p);
        RowTokens(table, g, refs, now, fields, " ", "]" + rest);
        RowStarts(table, g, refs, now, fields, "]" + rest);
        hide *;
        NodeTokens(refs, p, table[tag].name, PrintAll(table, g, refs, now, fields, " ").text, rest,
          TokensOfAll(table, g, refs, now, fields));
      } else if Braced(refs, p, |fields|, true) {
        PrintBlock(table, g, refs, seen, p);
        RowTokens(table, g, refs, now, fields, "", "}" + rest);
        hide *;
        BlockTextTokens(refs, p, PrintAll(table, g, refs, now, fields, "").text, rest,
          TokensOfAll(table, g, refs, now, fields));
      } else {
        PrintHidden(table, g, refs, seen, p);
        RowTokens(table, g, refs, now, fields, "", rest);
      }
    }
  }

  lemma NodeTokens(refs: set<nat>, p: nat, name: string, row: string, rest: string, ts: seq<string>)
    requires IsWord(name) && Ends(row + ("]" + rest)) && Tokens(row + ("]" + rest)) == ts + Tokens("]" + rest)
    ensures Tokens(Prefix(refs, p) + NodeText(name, row) + rest) ==
      Name(refs, p) + ["[", name] + ts + ["]"] + Tokens(rest)
  {
    hide Tokens, Prefix, NodeText, Name, Ends, IsWord;
    BracketTokens(name, row, rest, ts);
    NodeTextEnds(name, row, rest);
    NameTokens(refs, p, NodeText(name, row), rest, ["[", name] + ts + ["]"]);
    assert Name(refs, p) + (["[", name] + ts + ["]"]) == Name(refs, p) + ["[", name] + ts + ["]"];
  }

  lemma BlockTextTokens(refs: set<nat>, p: nat, row: string, rest: string, ts: seq<string>)
    requires Tokens(row + ("}" + rest)) == ts + Tokens("}" + rest)
    ensures Tokens(Prefix(refs, p) + ("{" + row + "}") + rest) == Name(refs, p) + ["{"] + ts + ["}"] + Tokens(rest)
  {
    hide Tokens, Prefix, Name, Ends;
    BraceTokens(row, rest, ts);
    BraceEnds(row, rest);
    NameTokens(refs, p, "{" + row + "}", rest, ["{"] + ts + ["}"]);
    assert Name(refs, p) + (["{"] + ts + ["}"]) == Name(refs, p) + ["{"] + ts + ["}"];
  }

  lemma BraceEnds(row: string, rest: string)
    ensures Ends(("{" + row + "}") + rest)
  {
    assert (("{" + row + "}") + rest)[0] == '{';
  }

  lemma SeenText(table: Table, g: Graph, refs: set<nat>, seen: set<nat>, p: nat)
    requires GraphOk(table, g) && 0 in seen && (p == 0 || p in g) && p in seen
    ensures Print(table, g, refs, seen, p, true).text == NameOf(p) && TokensOf(table, g, refs, seen, p) == [NameOf(p)]
  {
  }

  lemma PrintImv(table: Table, g: Graph, refs: set<nat>, seen: set<nat>, p: nat)
    requires GraphOk(table, g) && 0 in seen && p in g && p !in seen && g[p].Ast? && g[p].tag == IMV
    ensures |table| > IMV && |g[p].fields| == 1
    ensures Print(table, g, refs, seen, p, true).text ==
      Prefix(refs, p) + NodeText(table[IMV].name, " " + NameOf(g[p].fields[0]))
    ensures TokensOf(table, g, refs, seen, p) ==
      Name(refs, p) + ["[", table[IMV].name] + [NameOf(g[p].fields[0])] + ["]"]
  {
    hide NameOf, Prefix, Name, NodeText;
  }

  lemma PrintEmpty(table: Table, g: Graph, refs: set<nat>, seen: set<nat>, p: nat)
    requires GraphOk(table, g) && 0 in seen && p in g && p !in seen && g[p] == Ast(BASIC_BLOCK, [])
    ensures Print(table, g, refs, seen, p, true).text == Prefix(refs, p) + (if p in refs then "{0" else "0")
    ensures TokensOf(table, g, refs, seen, p) == Name(refs, p) + (if p in refs then ["{", "0"] else ["0"])
  {
    hide NameOf, Prefix, Name;
    assert BlockText(p in refs, 0, "") == if p in refs then "{0" else "0";
  }

  lemma PrintNode(table: Table, g: Graph, refs: set<nat>, seen: set<nat>, p: nat)
    requires GraphOk(table, g) && 0 in seen && p in g && p !in seen && Ordinary(g[p]) && g[p].tag < |table|
    requires forall f | f in g[p].fields :: f == 0 || f in g
    ensures Print(table, g, refs, seen, p, true).text ==
      Prefix(refs, p) + NodeText(table[g[p].tag].name, PrintAll(table, g, refs, seen + {p}, g[p].fields, " ").text)
    ensures TokensOf(table, g, refs, seen, p) ==
      Name(refs, p) + ["[", table[g[p].tag].name] + TokensOfAll(table, g, refs, seen + {p}, g[p].fields) + ["]"]
  {
    hide NameOf, Prefix, Name, NodeText, PrintAll, TokensOfAll;
  }

  lemma PrintBlock(table: Table, g: Graph, refs: set<nat>, seen: set<nat>, p: nat)
    requires GraphOk(table, g) && 0 in seen && p in g && p !in seen && IsBlock(g[p]) && g[p].fields != []
    requires Braced(refs, p, |g[p].fields|, true)
    requires forall f | f in g[p].fields :: f == 0 || f in g
    ensures Print(table, g, refs, seen, p, true).text ==
      Prefix(refs, p) + ("{" + PrintAll(table, g, refs, seen + {p}, g[p].fields, "").text + "}")
    ensures TokensOf(table, g, refs, seen, p) ==
      Name(refs, p) + ["{"] + TokensOfAll(table, g, refs, seen + {p}, g[p].fields) + ["}"]
  {
    hide NameOf, Prefix, Name, PrintAll, TokensOfAll;
    var row := PrintAll(table, g, refs, seen + {p}, g[p].fields, "").text;
    assert "{" + row + "}" == BlockText(true, |g[p].fields|, row);
  }

  /** One element without a name around it is all that such a block shows. */
  lemma PrintHidden(table: Table, g: Graph, refs: set<nat>, seen: set<nat>, p: nat)
    requires GraphOk(table, g) && 0 in seen && p in g && p !in seen && IsBlock(g[p]) && g[p].fields != []
    requires !Braced(refs, p, |g[p].fields|, true)
    requires forall f | f in g[p].fields :: f == 0 || f in g
    ensures Print(table, g, refs, seen, p, true).text == PrintAll(table, g, refs, seen + {p}, g[p].fields, "").text
    ensures TokensOf(table, g, refs, seen, p) == TokensOfAll(table, g, refs, seen + {p}, g[p].fields)
  {
    hide NameOf, PrintAll, TokensOfAll;
    var row := PrintAll(table, g, refs, seen + {p}, g[p].fields, "").text;
    assert BlockText(false, |g[p].fields|, row) == row;
    assert Prefix(refs, p) + row == row;
  }

  /** A row of fields starts with a space, or is empty. */
  lemma RowStarts(table: Table, g: Graph, refs: set<nat>, seen: set<nat>, fields: seq<nat>, rest: string)
    requires GraphOk(table, g) && 0 in seen && (forall f | f in fields :: f == 0 || f in g) && Ends(rest)
    ensures Ends(PrintAll(table, g, refs, seen, fields, " ").text + rest)
  {
    if fields != [] {
      assert (PrintAll(table, g, refs, seen, fields, " ").text + rest)[0] == ' ';
    }
  }

  lemma {:induction false} RowTokens(table: Table, g: Graph, refs: set<nat>, seen: set<nat>, fields: seq<nat>,
      before: string, rest: string)
    requires TableOk(table) && GraphOk(table, g) && 0 in seen && (forall f | f in fields :: f == 0 || f in g)
    requires Ends(rest) && (before == "" || before == " ")
    ensures Tokens(PrintAll(table, g, refs, seen, fields, before).text + rest) ==
      TokensOfAll(table, g, refs, seen, fields) + Tokens(rest)
    decreases g.Keys - seen, 2, |fields|
  {
    if fields == [] {
      assert PrintAll(table, g, refs, seen, fields, before).text + rest == rest;
    } else {
      var t := Print(table, g, refs, seen, fields[0], true);
      var u := PrintAll(table, g, refs, t.seen, fields[1..], " ");
      var first, others := TokensOf(table, g, refs, seen, fields[0]), TokensOfAll(table, g, refs, t.seen, fields[1..]);
      RowTokens(table, g, refs, t.seen, fields[1..], " ", rest);
      RowStarts(table, g, refs, t.seen, fields[1..], rest);
      TextTokens(table, g, refs, seen, fields[0], u.text + rest);
      RowFirst(table, g, refs, seen, fields, before);
      hide *;
      JoinTokens(before, t.text, u.text, rest, first, others);
    }
  }

  lemma RowFirst(table: Table, g: Graph, refs: set<nat>, seen: set<nat>, fields: seq<nat>, before: string)
    requires GraphOk(table, g) && 0 in seen && (forall f | f in fields :: f == 0 || f in g) && fields != []
    ensures var t := Print(table, g, refs, seen, fields[0], true);
      var u := PrintAll(table, g, refs, t.seen, fields[1..], " ");
      && PrintAll(table, g, refs, seen, fields, before).text == before + t.text + u.text
      && TokensOfAll(table, g, refs, seen, fields) == TokensOf(table, g, refs, seen, fields[0])
           + TokensOfAll(table, g, refs, t.seen, fields[1..])
  {
  }

  // ---------------------------------------------------------------- reading back

  /** f sends the nodes that were printed to the ones that were made for them; the reader knows
      the names of those that are referred to again, but not yet those of the open blocks. */
  ghost predicate Matches(refs: set<nat>, f: map<nat, nat>, r: Reader, open: set<nat>) {
    && 0 in f && f[0] == 0 && r.next > 0
    && (forall p | p in f && p != 0 :: 0 < f[p] < r.next && f[p] in r.heap)
    && (forall p, q | p in f && q in f && f[p] == f[q] :: p == q)
    && NamesMatch(refs, f, r.names, open) && open <= f.Keys
    && (forall a | a in r.heap :: a < r.next)
  }

  ghost predicate NamesMatch(refs: set<nat>, f: map<nat, nat>, names: map<string, nat>, open: set<nat>) {
    && (forall p | p in f && p !in open && (p == 0 || p in refs) :: NameOf(p) in names && names[NameOf(p)] == f[p])
    && (forall k | k in names :: exists p :: p in f && p !in open && NameOf(p) == k)
  }

  /** The node made for p is complete, and corresponds to it. */
  ghost predicate Finished(g: Graph, f: map<nat, nat>, heap: Graph, p: nat) {
    && p in g && p in f && f[p] in heap && g[p].Ast?
    && (forall x | x in g[p].fields :: x in f)
    && heap[f[p]] == Ast(g[p].tag, MapAll(f, g[p].fields))
  }

  /** What reading some nodes does; `at` is a node that is being filled meanwhile. */
  ghost predicate Grown(g: Graph, refs: set<nat>, f: map<nat, nat>, r: Reader, f': map<nat, nat>, r': Reader,
      at: Option<nat>, open: set<nat>)
  {
    && Matches(refs, f', r', open) && r.next <= r'.next
    && (forall p | p in f :: p in f' && f'[p] == f[p])
    && (forall a | a in r.heap :: a in r'.heap && (Some(a) != at ==> r'.heap[a] == r.heap[a]))
    && (forall p | p in f' && p !in f :: r.next <= f'[p] && Finished(g, f', r'.heap, p))
  }

  /** The printer sees what the first pass saw. */
  lemma {:induction false} SameSeen(table: Table, g: Graph, refs: set<nat>, r: Refs, p: nat, allowed: bool)
    requires GraphOk(table, g) && 0 in r.seen && (p == 0 || p in g)
    ensures Print(table, g, refs, r.seen, p, allowed).seen == Determine(table, g, r, p).seen
    decreases g.Keys - r.seen, 1, 0
  {
    if p !in r.seen {
      ChildrenIn(table, g, p);
      var r1 := Refs(r.seen + {p}, r.again);
      hide GraphOk;
      if g[p].tag == BASIC_BLOCK { SameSeenAll(table, g, refs, r1, g[p].fields, ""); }
      else if g[p].tag != IMV { SameSeenAll(table, g, refs, r1, g[p].fields, " "); }
    }
  }

  lemma {:induction false} SameSeenAll(table: Table, g: Graph, refs: set<nat>, r: Refs, fields: seq<nat>,
      before: string)
    requires GraphOk(table, g) && 0 in r.seen && (forall f | f in fields :: f == 0 || f in g)
    ensures PrintAll(table, g, refs, r.seen, fields, before).seen == DetermineAll(table, g, r, fields).seen
    decreases g.Keys - r.seen, 2, |fields|
  {
    if fields != [] {
      SameSeen(table, g, refs, r, fields[0], true);
      SameSeenAll(table, g, refs, Determine(table, g, r, fields[0]), fields[1..], " ");
    }
  }

  lemma GrownRefl(g: Graph, refs: set<nat>, f: map<nat, nat>, r: Reader, r': Reader, at: Option<nat>, open: set<nat>)
    requires Matches(refs, f, r, open) && r' == r.(toks := r'.toks)
    ensures Grown(g, refs, f, r, f, r', at, open)
  {
  }

  /** One more field was read and stored in the node being filled. */
  lemma GrownStep(g: Graph, refs: set<nat>, f0: map<nat, nat>, r0: Reader, f1: map<nat, nat>, r1: Reader, r2: Reader,
      f3: map<nat, nat>, r3: Reader, at: nat, open: set<nat>)
    requires Grown(g, refs, f0, r0, f1, r1, None, open) && at in r0.heap && at < r0.next
    requires r2.next == r1.next && r2.heap.Keys == r1.heap.Keys && forall a | a in r1.heap && a != at ::
      r2.heap[a] == r1.heap[a]
    requires Grown(g, refs, f1, r2, f3, r3, Some(at), open)
    ensures Grown(g, refs, f0, r0, f3, r3, Some(at), open)
  {
    hide Matches;
    forall p | p in f3 && p !in f0 ensures r0.next <= f3[p] && Finished(g, f3, r3.heap, p) {
      if p in f1 {
        assert Finished(g, f1, r1.heap, p);
        assert MapAll(f1, g[p].fields) == MapAll(f3, g[p].fields);
      }
    }
  }

  lemma MatchesAt(refs: set<nat>, f: map<nat, nat>, r: Reader, r': Reader, open: set<nat>)
    requires Matches(refs, f, r, open) && r'.next == r.next && r'.heap.Keys == r.heap.Keys && r'.names == r.names
    ensures Matches(refs, f, r', open)
  {
    hide NamesMatch;
  }

  lemma TokensStart(table: Table, g: Graph, refs: set<nat>, seen: set<nat>, p: nat)
    requires GraphOk(table, g) && 0 in seen && (p == 0 || p in g) && (p in seen || Shown(refs, p, g[p]))
    ensures var ts := TokensOf(table, g, refs, seen, p); |ts| > 0 && ts[0] != "]" && ts[0] != "}" && ts[0] != ""
  {
    NameIsWord(p);
    NamedWord(p);
  }

  /** A name that was printed before is found, unless it is that of a block that is open. */
  lemma ReadAgain(table: Table, g: Graph, refs: set<nat>, f: map<nat, nat>, r: Reader, p: nat, open: set<nat>)
    requires Matches(refs, f, r, open) && p in f && (p == 0 || p in refs)
    ensures ReadOne(table, r, NameOf(p)) == if p in open then None else Some((r, f[p]))
  {
    hide NameOf;
    NameIsWord(p);
    if p in open { NewName(refs, f, r.names, p, open); }
  }

  lemma NewName(refs: set<nat>, f: map<nat, nat>, names: map<string, nat>, p: nat, open: set<nat>)
    requires NamesMatch(refs, f, names, open) && (p !in f || p in open)
    ensures NameOf(p) !in names && "" !in names
  {
    hide NameOf;
    forall k | k in names ensures k != NameOf(p) && k != "" {
      var q :| q in f && q !in open && NameOf(q) == k;
      if NameOf(q) == NameOf(p) { NamesDiffer(p, q); }
      NameIsWord(q);
    }
  }

  /** A node that was open gets its name. */
  lemma BindNames(refs: set<nat>, f: map<nat, nat>, names: map<string, nat>, p: nat, name: string, open: set<nat>)
    requires NamesMatch(refs, f, names, open + {p}) && p != 0 && p in f && p !in open
    requires name == (if p in refs then NameOf(p) else "")
    ensures NamesMatch(refs, f, Bind(names, name, f[p]), open)
  {
    hide NameOf;
    NewName(refs, f, names, p, open + {p});
    NameIsWord(p);
    var names' := Bind(names, name, f[p]);
    forall k | k in names' ensures exists q :: q in f && q !in open && NameOf(q) == k {
      if k in names {
        var q :| q in f && q !in open + {p} && NameOf(q) == k;
        assert q in f && q !in open;
      } else {
        assert NameOf(p) == k && p in f;
      }
    }
    forall q | q in f && q !in open && (q == 0 || q in refs) ensures NameOf(q) in names' && names'[NameOf(q)] == f[q] {
      if q != p && NameOf(q) == NameOf(p) { NamesDiffer(p, q); }
    }
  }

  lemma OpenNames(refs: set<nat>, f: map<nat, nat>, names: map<string, nat>, p: nat, at: nat, open: set<nat>)
    requires NamesMatch(refs, f, names, open) && p !in f
    ensures NamesMatch(refs, f[p := at], names, open + {p})
  {
    hide NameOf;
    var f' := f[p := at];
    forall k | k in names ensures exists q :: q in f' && q !in open + {p} && NameOf(q) == k {
      var q :| q in f && q !in open && NameOf(q) == k;
      assert q in f' && q !in open + {p};
    }
  }

  /** A node is made, and its name is not known yet. */
  lemma OpenNode(refs: set<nat>, f: map<nat, nat>, r: Reader, p: nat, c: Cell, open: set<nat>)
    requires Matches(refs, f, r, open) && p != 0 && p !in f
    ensures Matches(refs, f[p := r.next], Make(r, c), open + {p}) && p !in open
    ensures (if p in refs then NameOf(p) else "") !in r.names
  {
    hide NamesMatch, NameOf;
    NewName(refs, f, r.names, p, open);
    OpenNames(refs, f, r.names, p, r.next, open);
  }

  /** Its name is entered. */
  lemma NameNode(refs: set<nat>, f: map<nat, nat>, r: Reader, p: nat, name: string, open: set<nat>)
    requires Matches(refs, f, r, open + {p}) && p != 0 && p in f && p !in open
    requires name == (if p in refs then NameOf(p) else "")
    ensures Matches(refs, f, r.(names := Bind(r.names, name, f[p])), open)
    ensures name !in r.names
  {
    hide NamesMatch, NameOf, Bind;
    NewName(refs, f, r.names, p, open + {p});
    BindNames(refs, f, r.names, p, name, open);
  }

  lemma TagFound(table: Table, tag: nat)
    requires TableOk(table) && tag < |table|
    ensures FindTag(table, table[tag].name) == Some(tag)
  {
    assert FindTag(table, table[tag].name).Some?;
  }

  /** Reading the text of a node gives a node that corresponds to it, if no block is come across
      again inside its own braces; otherwise it is an error. */
  lemma {:induction false} ReadPrinted(table: Table, g: Graph, refs: set<nat>, f: map<nat, nat>, r: Reader, p: nat,
      again: set<nat>, rest: seq<string>, open: set<nat>)
      returns (f': map<nat, nat>, r': Reader)
    requires TableOk(table) && GraphOk(table, g) && Matches(refs, f, r, open) && (p == 0 || p in g)
    requires Shows(table, g, refs, f.Keys, p)
    requires Determine(table, g, Refs(f.Keys, again), p).again <= refs
    requires var ts := TokensOf(table, g, refs, f.Keys, p); |ts| > 0 && r.toks == ts[1..] + rest
    ensures |TokensOf(table, g, refs, f.Keys, p)| > 0
    ensures var q := ReadOne(table, r, TokensOf(table, g, refs, f.Keys, p)[0]);
      if Clear(table, g, refs, f.Keys, p, open) then p in f' && q == Some((r', f'[p])) else q == None
    ensures Clear(table, g, refs, f.Keys, p, open) ==>
      && r'.toks == rest && Grown(g, refs, f, r, f', r', None, open)
      && f'.Keys == Print(table, g, refs, f.Keys, p, true).seen
    decreases g.Keys - f.Keys, 1, 0
  {
    if p in f {
      f', r' := f, r;
      assert r.toks == rest;
      hide Matches, Grown, ReadOne, NameOf;
      ReadAgain(table, g, refs, f, r, p, open);
      GrownRefl(g, refs, f, r, r', None, open);
    } else if IsBlock(g[p]) {
      f', r' := ReadNewBlock(table, g, refs, f, r, p, again, rest, open);
    } else {
      assert Shown(refs, p, g[p]);
      f', r' := ReadNew(table, g, refs, f, r, p, again, rest, open);
    }
  }

  /** As ReadPrinted, for an ordinary node that is printed for the first time. */
  lemma {:induction false} ReadNew(table: Table, g: Graph, refs: set<nat>, f: map<nat, nat>, r: Reader, p: nat,
      again: set<nat>, rest: seq<string>, open: set<nat>)
      returns (f': map<nat, nat>, r': Reader)
    requires TableOk(table) && GraphOk(table, g) && Matches(refs, f, r, open) && p in g && p !in f && Ordinary(g[p])
    requires Shows(table, g, refs, f.Keys, p)
    requires Determine(table, g, Refs(f.Keys, again), p).again <= refs
    requires var ts := TokensOf(table, g, refs, f.Keys, p); |ts| > 0 && r.toks == ts[1..] + rest
    ensures |TokensOf(table, g, refs, f.Keys, p)| > 0
    ensures var q := ReadOne(table, r, TokensOf(table, g, refs, f.Keys, p)[0]);
      if Clear(table, g, refs, f.Keys, p, open) then p in f' && q == Some((r', f'[p])) else q == None
    ensures Clear(table, g, refs, f.Keys, p, open) ==>
      && r'.toks == rest && Grown(g, refs, f, r, f', r', None, open)
      && f'.Keys == Print(table, g, refs, f.Keys, p, true).seen
    decreases g.Keys - f.Keys, 0, 0
  {
    hide Matches, Grown, NameOf, ReadFields, FindTag, TokensOfAll, PrintAll, DetermineAll, TableOk, ReadOne, Filled,
      Bind, BlankFields, ShowsAll, ClearAll, TokensOf, Print, Determine, Clear, Shows;
    ChildrenIn(table, g, p);
    MatchesFacts(refs, f, r, open);
    assert g[p].tag < |table|;
    TagFound(table, g[p].tag);
    var tag, fields := g[p].tag, g[p].fields;
    var name := if p in refs then NameOf(p) else "";
    NodeParts(table, g, refs, f.Keys, again, p, open);
    var ahead := TokensOfAll(table, g, refs, f.Keys + {p}, fields) + ["]"] + rest;
    var r0 := r.(toks := ahead);
    var made := Make(r0, Ast(tag, BlankFields(table, tag)));
    var r1 := made.(names := Bind(made.names, name, r.next));
    var f1 := f[p := r.next];
    MatchesAt(refs, f, r, r0, open);
    OpenNode(refs, f, r0, p, Ast(tag, BlankFields(table, tag)), open);
    NameNode(refs, f1, made, p, name, open);
    assert f1.Keys == f.Keys + {p};
    assert fields[0..] == fields;
    FilledAtFirst(table, g, f1, r1.heap, p);
    f', r' := ReadRow(table, g, refs, f1, r1, p, 0, again, rest, open);
    OpenTokens(table, g, refs, f.Keys, p, ahead, rest);
    ReadsNode(table, r, p, refs, tag, ahead, r1);
    if Clear(table, g, refs, f.Keys, p, open) { GrownNew(g, refs, f, r, f1, r1, f', r', p, open); }
  }

  /** What the passes over an ordinary node do is what they do over its fields. */
  lemma NodeParts(table: Table, g: Graph, refs: set<nat>, seen: set<nat>, again: set<nat>, p: nat, open: set<nat>)
    requires GraphOk(table, g) && 0 in seen && p in g && p !in seen && Ordinary(g[p])
    requires Shows(table, g, refs, seen, p) && forall x | x in g[p].fields :: x == 0 || x in g
    ensures Determine(table, g, Refs(seen, again), p) == DetermineAll(table, g, Refs(seen + {p}, again), g[p].fields)
    ensures Print(table, g, refs, seen, p, true).seen == PrintAll(table, g, refs, seen + {p}, g[p].fields, " ").seen
    ensures ShowsAll(table, g, refs, seen + {p}, g[p].fields)
    ensures Clear(table, g, refs, seen, p, open) == ClearAll(table, g, refs, seen + {p}, g[p].fields, open)
  {
    hide NameOf, PrintAll, DetermineAll, ShowsAll, ClearAll, NodeText, Prefix;
  }

  lemma MatchesFacts(refs: set<nat>, f: map<nat, nat>, r: Reader, open: set<nat>)
    requires Matches(refs, f, r, open)
    ensures 0 in f && r.next !in r.heap && forall p | p in f && p != 0 :: f[p] in r.heap && f[p] < r.next
  {
  }

  lemma FilledFacts(g: Graph, f: map<nat, nat>, heap: Graph, p: nat, k: nat)
    requires Filled(g, f, heap, p, k)
    ensures p in f && p in g && f[p] in heap && k <= |g[p].fields|
  {
  }

  /** The first k fields of the node made for p were read. */
  ghost predicate Filled(g: Graph, f: map<nat, nat>, heap: Graph, p: nat, k: nat) {
    && p in g && p in f && f[p] in heap && g[p].Ast? && k <= |g[p].fields|
    && (forall x | x in g[p].fields[..k] :: x in f)
    && heap[f[p]] == Ast(g[p].tag, MapAll(f, g[p].fields[..k]) + Zeros(|g[p].fields| - k))
  }

  lemma FilledAtFirst(table: Table, g: Graph, f: map<nat, nat>, heap: Graph, p: nat)
    requires GraphOk(table, g) && p in g && p in f && f[p] in heap && Ordinary(g[p]) && g[p].tag < |table|
    requires heap[f[p]] == Ast(g[p].tag, BlankFields(table, g[p].tag))
    ensures Filled(g, f, heap, p, 0)
  {
    assert MapAll(f, g[p].fields[..0]) + Zeros(|g[p].fields| - 0) == Zeros(|g[p].fields|);
  }

  /** The tokens of a node that is printed for the first time. */
  lemma OpenTokens(table: Table, g: Graph, refs: set<nat>, seen: set<nat>, p: nat, ahead: seq<string>,
      rest: seq<string>)
    requires GraphOk(table, g) && 0 in seen && p in g && p !in seen && Ordinary(g[p])
    requires forall x | x in g[p].fields :: x == 0 || x in g
    requires g[p].tag < |table| && ahead == TokensOfAll(table, g, refs, seen + {p}, g[p].fields) + ["]"] + rest
    ensures var ts := TokensOf(table, g, refs, seen, p); var name := table[g[p].tag].name;
      && |ts| > 0
      && (p in refs ==> ts[0] == "_" + NameOf(p) && ts[1..] + rest == ["[", name] + ahead)
      && (p !in refs ==> ts[0] == "[" && ts[1..] + rest == [name] + ahead)
  {
    hide NameOf, TokensOfAll;
    var ts, name := TokensOf(table, g, refs, seen, p), table[g[p].tag].name;
    var row := TokensOfAll(table, g, refs, seen + {p}, g[p].fields);
    assert ts == Name(refs, p) + ["[", name] + row + ["]"];
  }

  lemma ReadsNode(table: Table, r: Reader, p: nat, refs: set<nat>, tag: nat, ahead: seq<string>, r1: Reader)
    requires tag < |table| && FindTag(table, table[tag].name) == Some(tag)
    requires var name := if p in refs then NameOf(p) else "";
      && name !in r.names
      && r1 == Make(r.(toks := ahead), Ast(tag, BlankFields(table, tag))).(names := Bind(r.names, name, r.next))
    requires r.toks == (if p in refs then ["[", table[tag].name] else [table[tag].name]) + ahead
    ensures ReadOne(table, r, if p in refs then "_" + NameOf(p) else "[") ==
      var q := ReadFields(table, r1, r.next, tag, 0); if q.None? then None else Some((q.value, r.next))
  {
    hide ReadFields, FindTag, NameOf, BlankFields;
    var name := if p in refs then NameOf(p) else "";
    var r0 := r.(toks := [table[tag].name] + ahead);
    assert r0.toks[1..] == ahead && r0.toks[0] == table[tag].name;
    var q := ReadFields(table, r1, r.next, tag, 0);
    assert ReadNamed(table, r0, name, "[") == if q.None? then None else Some((q.value, r.next));
    if p in refs {
      var first := "_" + NameOf(p);
      assert first[1..] == NameOf(p);
      assert r.toks[0] == "[" && r.toks[1..] == r0.toks;
    } else {
      assert r.toks == r0.toks;
    }
  }

  lemma GrownNew(g: Graph, refs: set<nat>, f: map<nat, nat>, r: Reader, f1: map<nat, nat>, r1: Reader, f': map<nat,
      nat>, r': Reader, p: nat, open: set<nat>)
    requires Matches(refs, f, r, open) && p !in f && p != 0 && p in g && g[p].Ast? && f1 == f[p := r.next]
    requires r1.next == r.next + 1 && r1.heap.Keys == r.heap.Keys + {r.next} && forall a | a in r.heap ::
      r1.heap[a] == r.heap[a]
    requires Grown(g, refs, f1, r1, f', r', Some(r.next), open) && Filled(g, f', r'.heap, p, |g[p].fields|)
    ensures Grown(g, refs, f, r, f', r', None, open) && p in f' && f'[p] == r.next
  {
    hide Matches, Finished;
    forall x | x in f' && x !in f ensures r.next <= f'[x] && Finished(g, f', r'.heap, x) {
      if x == p { FilledIsFinished(g, f', r'.heap, p); }
    }
    MatchesFacts(refs, f, r, open);
    hide Filled;
  }

  lemma FilledIsFinished(g: Graph, f: map<nat, nat>, heap: Graph, p: nat)
    requires p in g && g[p].Ast? && Filled(g, f, heap, p, |g[p].fields|)
    ensures Finished(g, f, heap, p)
  {
    assert g[p].fields[..|g[p].fields|] == g[p].fields;
    assert MapAll(f, g[p].fields) + Zeros(0) == MapAll(f, g[p].fields);
  }

  /** Reading the fields of a node from the k-th on, up to its closing bracket. */
  lemma {:induction false} ReadRow(table: Table, g: Graph, refs: set<nat>, f: map<nat, nat>, r: Reader, p: nat, k: nat,
      again: set<nat>, rest: seq<string>, open: set<nat>)
      returns (f': map<nat, nat>, r': Reader)
    requires TableOk(table) && GraphOk(table, g) && Matches(refs, f, r, open) && p in g && Ordinary(g[p])
    requires g[p].tag < |table|
    requires forall x | x in g[p].fields :: x == 0 || x in g
    requires Filled(g, f, r.heap, p, k) && ShowsAll(table, g, refs, f.Keys, g[p].fields[k..])
    requires DetermineAll(table, g, Refs(f.Keys, again), g[p].fields[k..]).again <= refs
    requires r.toks == TokensOfAll(table, g, refs, f.Keys, g[p].fields[k..]) + (["]"] + rest)
    ensures p in f
    ensures ReadFields(table, r, f[p], g[p].tag, k) ==
      if ClearAll(table, g, refs, f.Keys, g[p].fields[k..], open) then Some(r') else None
    ensures ClearAll(table, g, refs, f.Keys, g[p].fields[k..], open) ==>
      && r'.toks == rest
      && Grown(g, refs, f, r, f', r', Some(f[p]), open) && Filled(g, f', r'.heap, p, |g[p].fields|)
      && f'.Keys == PrintAll(table, g, refs, f.Keys, g[p].fields[k..], " ").seen
    decreases g.Keys - f.Keys, 2, |g[p].fields| - k
  {
    hide Matches, Grown, NameOf, ReadOne, TableOk, GraphOk, Determine, Print, TokensOf, Filled, SetField, ReadFields,
      TokensOfAll, DetermineAll, PrintAll, Shows, ShowsAll, Clear, ClearAll;
    FilledFacts(g, f, r.heap, p, k);
    MatchesFacts(refs, f, r, open);
    FieldCount(table, g, p);
    var fields, tag, at := g[p].fields, g[p].tag, f[p];
    if k == |fields| {
      f', r' := f, r.(toks := rest);
      RowEnd(table, g, refs, f.Keys, fields[k..], open);
      FieldsEnd(table, r, at, tag, k, rest);
      GrownRefl(g, refs, f, r, r', Some(at), open);
    } else {
      var seen, x := f.Keys, fields[k];
      RowSplit(table, g, refs, seen, again, fields, k, ["]"] + rest, open);
      var ts, d := TokensOf(table, g, refs, seen, x), Determine(table, g, Refs(seen, again), x);
      var after := TokensOfAll(table, g, refs, d.seen, fields[k + 1..]) + (["]"] + rest);
      var r0 := r.(toks := ts[1..] + after);
      MatchesAt(refs, f, r, r0, open);
      var f1, r1 := ReadPrinted(table, g, refs, f, r0, x, again, after, open);
      FieldRead(table, r, ts[0], r0, at, tag, k);
      if Clear(table, g, refs, seen, x, open) {
        var r2 := SetField(r1, at, k, f1[x]);
        FilledMore(g, refs, f, r0, f1, r1, p, k, open);
        f', r' := ReadRow(table, g, refs, f1, r2, p, k + 1, d.again, rest, open);
        if ClearAll(table, g, refs, f1.Keys, fields[k + 1..], open) {
          GrownStep(g, refs, f, r0, f1, r1, r2, f', r', at, open);
          GrownFrom(g, refs, f, r, r0, f', r', at, open);
        }
      } else {
        f', r' := f, r;
      }
    }
  }

  lemma FieldsEnd(table: Table, r: Reader, at: nat, tag: nat, k: nat, rest: seq<string>)
    requires tag < |table| && r.toks == ["]"] + rest
    ensures ReadFields(table, r, at, tag, k) == Some(r.(toks := rest))
  {
  }

  lemma FieldRead(table: Table, r: Reader, first: string, r0: Reader, at: nat, tag: nat, k: nat)
    requires tag < |table| && tag != BASIC_BLOCK && k < table[tag].fields <= MAX_FIELDS && first != "]"
    requires r.toks == [first] + r0.toks && r0 == r.(toks := r0.toks)
    ensures var q := ReadOne(table, r0, first);
      ReadFields(table, r, at, tag, k) ==
        if q.None? then None else ReadFields(table, SetField(q.value.0, at, k, q.value.1), at, tag, k + 1)
  {
    hide ReadOne, SetField, ReadBlock;
    assert r.(toks := r.toks[1..]) == r0;
    BraceIsOne(table, r0);
  }

  lemma FieldCount(table: Table, g: Graph, p: nat)
    requires TableOk(table) && GraphOk(table, g) && p in g && Ordinary(g[p])
    ensures p != 0 && g[p].tag < |table| && |g[p].fields| == table[g[p].tag].fields <= MAX_FIELDS
  {
  }

  /** Reading a field, and then the others, comes across no more nodes again than reading them all. */
  lemma AgainWithin(table: Table, g: Graph, r: Refs, x: nat, others: seq<nat>)
    requires GraphOk(table, g) && 0 in r.seen && (x == 0 || x in g) && forall f | f in others :: f == 0 || f in g
    ensures Determine(table, g, r, x).again <= DetermineAll(table, g, Determine(table, g, r, x), others).again
    ensures DetermineAll(table, g, r, [x] + others) == DetermineAll(table, g, Determine(table, g, r, x), others)
  {
    assert ([x] + others)[1..] == others;
  }

  lemma FilledMore(g: Graph, refs: set<nat>, f: map<nat, nat>, r0: Reader, f1: map<nat, nat>, r1: Reader, p: nat,
      k: nat, open: set<nat>)
    requires Matches(refs, f, r0, open) && Grown(g, refs, f, r0, f1, r1, None, open) && Filled(g, f, r0.heap, p, k)
    requires p != 0
    requires k < |g[p].fields| && g[p].fields[k] in f1
    ensures var r2 := SetField(r1, f[p], k, f1[g[p].fields[k]]);
      && f1[p] == f[p] && f[p] in r0.heap && f[p] < r0.next
      && Filled(g, f1, r2.heap, p, k + 1) && Matches(refs, f1, r2, open)
      && r2.next == r1.next && r2.heap.Keys == r1.heap.Keys && r2.toks == r1.toks
      && forall a | a in r1.heap && a != f[p] :: r2.heap[a] == r1.heap[a]
  {
    hide NamesMatch, Finished;
    var fields, at := g[p].fields, f[p];
    var r2 := SetField(r1, at, k, f1[fields[k]]);
    assert p in f && p != 0 && f[p] in r0.heap && f[p] < r0.next;
    assert r1.heap[at] == r0.heap[at];
    assert fields[..k + 1] == fields[..k] + [fields[k]];
    forall x | x in fields[..k] ensures x in f1 { assert x in f; }
    assert MapAll(f1, fields[..k]) == MapAll(f, fields[..k]);
    assert MapAll(f1, fields[..k + 1]) + Zeros(|fields| - (k + 1)) ==
      (MapAll(f, fields[..k]) + Zeros(|fields| - k))[k := f1[fields[k]]];
  }

  lemma GrownFrom(g: Graph, refs: set<nat>, f: map<nat, nat>, r: Reader, r0: Reader, f': map<nat, nat>, r': Reader,
      at: nat, open: set<nat>)
    requires Grown(g, refs, f, r0, f', r', Some(at), open) && r0 == r.(toks := r0.toks)
    ensures Grown(g, refs, f, r, f', r', Some(at), open)
  {
  }

  /** A field in braces is read as any other. */
  lemma BraceIsOne(table: Table, r: Reader)
    ensures ReadOne(table, r, "{") == ReadBlock(table, r, true)
  {
    hide ReadBlock;
  }

  // ---------------------------------------------------------------- basic blocks

  function Tail(brace: bool, rest: seq<string>): seq<string> {
    if brace then ["}"] + rest else []
  }

  /** As ReadPrinted, for a basic block that is printed for the first time. Its name is entered
      when its brace is closed. */
  lemma {:induction false} ReadNewBlock(table: Table, g: Graph, refs: set<nat>, f: map<nat, nat>, r: Reader, p: nat,
      again: set<nat>, rest: seq<string>, open: set<nat>) returns (f': map<nat, nat>, r': Reader)
    requires TableOk(table) && GraphOk(table, g) && Matches(refs, f, r, open) && p in g && p !in f && IsBlock(g[p])
    requires Shows(table, g, refs, f.Keys, p)
    requires Determine(table, g, Refs(f.Keys, again), p).again <= refs
    requires var ts := TokensOf(table, g, refs, f.Keys, p); |ts| > 0 && r.toks == ts[1..] + rest
    ensures |TokensOf(table, g, refs, f.Keys, p)| > 0
    ensures var q := ReadOne(table, r, TokensOf(table, g, refs, f.Keys, p)[0]);
      if Clear(table, g, refs, f.Keys, p, open) then p in f' && q == Some((r', f'[p])) else q == None
    ensures Clear(table, g, refs, f.Keys, p, open) ==>
      && r'.toks == rest && Grown(g, refs, f, r, f', r', None, open)
      && f'.Keys == Print(table, g, refs, f.Keys, p, true).seen
    decreases g.Keys - f.Keys, 0, 0
  {
    hide Matches, Grown, NameOf, ReadElements, TokensOfAll, PrintAll, DetermineAll, TableOk, ReadOne, Pushed, Bind;
    hide Print, Determine, TokensOf, Clear, ClearAll, Shows, ShowsAll;
    ChildrenIn(table, g, p);
    MatchesFacts(refs, f, r, open);
    var fields := g[p].fields;
    var name := if p in refs then NameOf(p) else "";
    var ahead := TokensOfAll(table, g, refs, f.Keys + {p}, fields) + ["}"] + rest;
    var r0 := r.(toks := ahead);
    var r1, f1 := Make(r0, Ast(BASIC_BLOCK, [])), f[p := r.next];
    MatchesAt(refs, f, r, r0, open);
    OpenNode(refs, f, r0, p, Ast(BASIC_BLOCK, []), open);
    assert f1.Keys == f.Keys + {p} && fields[0..] == fields;
    PushedAtFirst(g, f1, r1.heap, p);
    BlockRow(table, g, refs, f.Keys, again, p, ahead, rest, open);
    assert ahead == TokensOfAll(table, g, refs, f1.Keys, fields) + Tail(true, rest);
    var r2;
    f', r2 := ReadBlockElements(table, g, refs, f1, r1, p, 0, again, true, rest, open + {p});
    r' := r2.(names := Bind(r2.names, name, r.next));
    ReadsBlock(table, r, p, refs, ahead, r1);
    if Clear(table, g, refs, f.Keys, p, open) { GrownNewBlock(g, refs, f, r, f1, r1, f', r2, r', p, name, open); }
  }

  lemma PushedAtFirst(g: Graph, f: map<nat, nat>, heap: Graph, p: nat)
    requires p in g && p in f && f[p] in heap && g[p].Ast? && heap[f[p]] == Ast(BASIC_BLOCK, [])
    ensures Pushed(g, f, heap, p, 0)
  {
    assert MapAll(f, g[p].fields[..0]) == [];
  }

  /** The tokens of a block, and what the passes over it do. */
  lemma BlockRow(table: Table, g: Graph, refs: set<nat>, seen: set<nat>, again: set<nat>, p: nat, ahead: seq<string>,
      rest: seq<string>, open: set<nat>)
    requires GraphOk(table, g) && 0 in seen && p in g && p !in seen && IsBlock(g[p])
    requires Shows(table, g, refs, seen, p) && forall x | x in g[p].fields :: x == 0 || x in g
    requires ahead == TokensOfAll(table, g, refs, seen + {p}, g[p].fields) + ["}"] + rest
    ensures Determine(table, g, Refs(seen, again), p) == DetermineAll(table, g, Refs(seen + {p}, again), g[p].fields)
    ensures Print(table, g, refs, seen, p, true).seen == PrintAll(table, g, refs, seen + {p}, g[p].fields, " ").seen
    ensures ShowsAll(table, g, refs, seen + {p}, g[p].fields)
    ensures Clear(table, g, refs, seen, p, open) == ClearAll(table, g, refs, seen + {p}, g[p].fields, open + {p})
    ensures var ts := TokensOf(table, g, refs, seen, p);
      && |ts| > 0
      && (p in refs ==> ts[0] == "_" + NameOf(p) && ts[1..] + rest == ["{"] + ahead)
      && (p !in refs ==> ts[0] == "{" && ts[1..] + rest == ahead)
  {
    hide NameOf, TokensOf, TokensOfAll, PrintAll, DetermineAll, Determine, Print, ClearAll, ShowsAll;
    BlockSeen(table, g, refs, seen, again, p);
    assert g[p].fields != [] && Braced(refs, p, |g[p].fields|, true);
    PrintBlock(table, g, refs, seen, p);
    hide GraphOk;
    var ts, row := TokensOf(table, g, refs, seen, p), TokensOfAll(table, g, refs, seen + {p}, g[p].fields);
    if p in refs {
      assert ts[1..] + rest == ["{"] + ahead;
    } else {
      assert ts[1..] + rest == ahead;
    }
  }

  lemma BlockSeen(table: Table, g: Graph, refs: set<nat>, seen: set<nat>, again: set<nat>, p: nat)
    requires GraphOk(table, g) && 0 in seen && p in g && p !in seen && IsBlock(g[p])
    requires forall x | x in g[p].fields :: x == 0 || x in g
    ensures Determine(table, g, Refs(seen, again), p) == DetermineAll(table, g, Refs(seen + {p}, again), g[p].fields)
    ensures Print(table, g, refs, seen, p, true).seen == PrintAll(table, g, refs, seen + {p}, g[p].fields, " ").seen
  {
    hide NameOf, PrintAll, DetermineAll, BlockText, Prefix;
    var d := Refs(seen + {p}, again);
    SameSeenAll(table, g, refs, d, g[p].fields, "");
    SameSeenAll(table, g, refs, d, g[p].fields, " ");
  }

  /** The reader reads a block in braces, and then enters its name. */
  lemma ReadsBlock(table: Table, r: Reader, p: nat, refs: set<nat>, ahead: seq<string>, r1: Reader)
    requires (if p in refs then NameOf(p) else "") !in r.names
    requires r1 == Make(r.(toks := ahead), Ast(BASIC_BLOCK, []))
    requires r.toks == (if p in refs then ["{"] + ahead else ahead)
    ensures ReadOne(table, r, if p in refs then "_" + NameOf(p) else "{") ==
      var q := ReadElements(table, r1, r.next, true); var name := if p in refs then NameOf(p) else "";
      if q.None? then None else Some((q.value.(names := Bind(q.value.names, name, r.next)), r.next))
  {
    hide ReadElements, NameOf;
    var name := if p in refs then NameOf(p) else "";
    var r0, q := r.(toks := ahead), ReadElements(table, r1, r.next, true);
    assert ReadBlock(table, r0, true) == if q.None? then None else Some((q.value, r.next));
    assert ReadNamed(table, r0, name, "{") ==
      if q.None? then None else Some((q.value.(names := Bind(q.value.names, name, r.next)), r.next));
    if p in refs {
      var first := "_" + NameOf(p);
      assert first[1..] == NameOf(p);
      assert r.toks[0] == "{" && r.toks[1..] == ahead;
    }
  }

  lemma PushedIsFinished(g: Graph, f: map<nat, nat>, heap: Graph, p: nat)
    requires p in g && IsBlock(g[p]) && Pushed(g, f, heap, p, |g[p].fields|)
    ensures Finished(g, f, heap, p)
  {
    assert g[p].fields[..|g[p].fields|] == g[p].fields;
  }

  lemma GrownNewBlock(g: Graph, refs: set<nat>, f: map<nat, nat>, r: Reader, f1: map<nat, nat>, r1: Reader, f': map<nat,
      nat>, r2: Reader, r': Reader,
      p: nat, name: string, open: set<nat>)
    requires Matches(refs, f, r, open) && p !in f && p != 0 && p in g && IsBlock(g[p]) && f1 == f[p := r.next]
    requires p !in open
    requires r1.next == r.next + 1 && r1.heap.Keys == r.heap.Keys + {r.next} && forall a | a in r.heap ::
      r1.heap[a] == r.heap[a]
    requires Grown(g, refs, f1, r1, f', r2, Some(r.next), open + {p}) && Pushed(g, f', r2.heap, p, |g[p].fields|)
    requires name == (if p in refs then NameOf(p) else "") && r' == r2.(names := Bind(r2.names, name, r.next))
    ensures Grown(g, refs, f, r, f', r', None, open) && p in f' && f'[p] == r.next
  {
    hide Matches, Finished, NameOf, Bind;
    assert p in f' && f'[p] == r.next;
    NameNode(refs, f', r2, p, name, open);
    forall x | x in f' && x !in f ensures r.next <= f'[x] && Finished(g, f', r'.heap, x) {
      if x == p { PushedIsFinished(g, f', r'.heap, p); }
    }
    MatchesFacts(refs, f, r, open);
    hide Pushed;
  }

  // ---------------------------------------------------------------- the whole text

  /** Reading the elements of a block from the k-th on, up to its closing brace, or to the end
      of the text. */
  lemma {:induction false} ReadBlockElements(table: Table, g: Graph, refs: set<nat>, f: map<nat, nat>, r: Reader,
      p: nat, k: nat, again: set<nat>, brace: bool, rest: seq<string>, open: set<nat>)
      returns (f': map<nat, nat>, r': Reader)
    requires TableOk(table) && GraphOk(table, g) && Matches(refs, f, r, open) && p in g && p != 0
    requires (!brace ==> rest == [])
    requires forall x | x in g[p].fields :: x == 0 || x in g
    requires Pushed(g, f, r.heap, p, k) && ShowsAll(table, g, refs, f.Keys, g[p].fields[k..])
    requires DetermineAll(table, g, Refs(f.Keys, again), g[p].fields[k..]).again <= refs
    requires r.toks == TokensOfAll(table, g, refs, f.Keys, g[p].fields[k..]) + Tail(brace, rest)
    ensures p in f
    ensures ReadElements(table, r, f[p], brace) ==
      if ClearAll(table, g, refs, f.Keys, g[p].fields[k..], open) then Some(r') else None
    ensures ClearAll(table, g, refs, f.Keys, g[p].fields[k..], open) ==>
      && r'.toks == rest
      && Grown(g, refs, f, r, f', r', Some(f[p]), open) && Pushed(g, f', r'.heap, p, |g[p].fields|)
      && f'.Keys == PrintAll(table, g, refs, f.Keys, g[p].fields[k..], " ").seen
    decreases g.Keys - f.Keys, 2, |g[p].fields| - k
  {
    hide Matches, Grown, NameOf, ReadOne, TableOk, GraphOk, Determine, Print, TokensOf, Pushed, Push, ReadElements,
      TokensOfAll, DetermineAll, PrintAll, Shows, ShowsAll, Clear, ClearAll;
    PushedFacts(g, f, r.heap, p, k);
    MatchesFacts(refs, f, r, open);
    var fields, at := g[p].fields, f[p];
    if k == |fields| {
      f', r' := f, r.(toks := rest);
      RowEnd(table, g, refs, f.Keys, fields[k..], open);
      assert r.toks == Tail(brace, rest);
      ElementsEnd(table, r, at, brace, rest);
      GrownRefl(g, refs, f, r, r', Some(at), open);
    } else {
      var seen, x := f.Keys, fields[k];
      RowSplit(table, g, refs, seen, again, fields, k, Tail(brace, rest), open);
      var ts, d := TokensOf(table, g, refs, seen, x), Determine(table, g, Refs(seen, again), x);
      var after := TokensOfAll(table, g, refs, d.seen, fields[k + 1..]) + Tail(brace, rest);
      var r0 := r.(toks := ts[1..] + after);
      MatchesAt(refs, f, r, r0, open);
      var f1, r1 := ReadPrinted(table, g, refs, f, r0, x, again, after, open);
      ElementRead(table, r, ts[0], r0, at, brace);
      if Clear(table, g, refs, seen, x, open) {
        var r2 := Push(r1, at, f1[x]);
        PushedMore(g, refs, f, r0, f1, r1, p, k, open);
        f', r' := ReadBlockElements(table, g, refs, f1, r2, p, k + 1, d.again, brace, rest, open);
        if ClearAll(table, g, refs, f1.Keys, fields[k + 1..], open) {
          GrownStep(g, refs, f, r0, f1, r1, r2, f', r', at, open);
          GrownFrom(g, refs, f, r, r0, f', r', at, open);
        }
      } else {
        f', r' := f, r;
      }
    }
  }

  lemma RowEnd(table: Table, g: Graph, refs: set<nat>, seen: set<nat>, fields: seq<nat>, open: set<nat>)
    requires GraphOk(table, g) && 0 in seen && fields == []
    ensures TokensOfAll(table, g, refs, seen, fields) == [] && PrintAll(table, g, refs, seen, fields, " ").seen == seen
    ensures ClearAll(table, g, refs, seen, fields, open)
  {
  }

  /** A row from the k-th field on is that field and the others. */
  lemma RowSplit(table: Table, g: Graph, refs: set<nat>, seen: set<nat>, again: set<nat>, fields: seq<nat>, k: nat,
      tail: seq<string>, open: set<nat>)
    requires GraphOk(table, g) && 0 in seen && (forall f | f in fields :: f == 0 || f in g)
    requires k < |fields| && ShowsAll(table, g, refs, seen, fields[k..])
    requires DetermineAll(table, g, Refs(seen, again), fields[k..]).again <= refs
    ensures var d := Determine(table, g, Refs(seen, again), fields[k]);
      && d.again <= refs && DetermineAll(table, g, d, fields[k + 1..]).again <= refs
      && Print(table, g, refs, seen, fields[k], true).seen == d.seen
      && PrintAll(table, g, refs, seen, fields[k..], " ").seen ==
           PrintAll(table, g, refs, d.seen, fields[k + 1..], " ").seen
      && Shows(table, g, refs, seen, fields[k]) && ShowsAll(table, g, refs, d.seen, fields[k + 1..])
      && ClearAll(table, g, refs, seen, fields[k..], open) ==
           (Clear(table, g, refs, seen, fields[k], open) && ClearAll(table, g, refs, d.seen, fields[k + 1..], open))
    ensures var d := Determine(table, g, Refs(seen, again), fields[k]);
      var ts := TokensOf(table, g, refs, seen, fields[k]);
      && |ts| > 0 && ts[0] != "]" && ts[0] != "}" && ts[0] != ""
      && TokensOfAll(table, g, refs, seen, fields[k..]) + tail ==
           [ts[0]] + (ts[1..] + (TokensOfAll(table, g, refs, d.seen, fields[k + 1..]) + tail))
  {
    hide GraphOk, NameOf, Determine, Print, TokensOf, Clear;
    var others := fields[k + 1..];
    assert fields[k..] == [fields[k]] + others;
    assert fields[k..][0] == fields[k] && fields[k..][1..] == others;
    var d := Determine(table, g, Refs(seen, again), fields[k]);
    TokensStart(table, g, refs, seen, fields[k]);
    SameSeen(table, g, refs, Refs(seen, again), fields[k], true);
    AgainWithin(table, g, Refs(seen, again), fields[k], others);
  }

  lemma ElementsEnd(table: Table, r: Reader, at: nat, brace: bool, rest: seq<string>)
    requires r.toks == Tail(brace, rest) && (!brace ==> rest == [])
    ensures ReadElements(table, r, at, brace) == Some(r.(toks := rest))
  {
  }

  lemma ElementRead(table: Table, r: Reader, first: string, r0: Reader, at: nat, brace: bool)
    requires r.toks == [first] + r0.toks && r0 == r.(toks := r0.toks) && first != "" && first != "}"
    ensures var q := ReadOne(table, r0, first);
      ReadElements(table, r, at, brace) ==
        if q.None? then None else ReadElements(table, Push(q.value.0, at, q.value.1), at, brace)
  {
    hide ReadOne, Push;
    assert r.(toks := r.toks[1..]) == r0;
  }

  /** The first k elements of the block made for p were read. */
  ghost predicate Pushed(g: Graph, f: map<nat, nat>, heap: Graph, p: nat, k: nat) {
    && p in g && p in f && f[p] in heap && g[p].Ast? && k <= |g[p].fields|
    && (forall x | x in g[p].fields[..k] :: x in f)
    && heap[f[p]] == Ast(BASIC_BLOCK, MapAll(f, g[p].fields[..k]))
  }

  lemma PushedFacts(g: Graph, f: map<nat, nat>, heap: Graph, p: nat, k: nat)
    requires Pushed(g, f, heap, p, k)
    ensures p in f && p in g && f[p] in heap && g[p].Ast? && k <= |g[p].fields|
  {
  }

  lemma PushedMore(g: Graph, refs: set<nat>, f: map<nat, nat>, r0: Reader, f1: map<nat, nat>, r1: Reader, p: nat,
      k: nat, open: set<nat>)
    requires Matches(refs, f, r0, open) && Grown(g, refs, f, r0, f1, r1, None, open) && Pushed(g, f, r0.heap, p, k)
    requires p != 0
    requires k < |g[p].fields| && g[p].fields[k] in f1
    ensures var r2 := Push(r1, f[p], f1[g[p].fields[k]]);
      && f1[p] == f[p] && f[p] in r0.heap && f[p] < r0.next && Pushed(g, f1, r2.heap, p, k + 1)
           && Matches(refs, f1, r2, open)
      && r2.next == r1.next && r2.heap.Keys == r1.heap.Keys && r2.toks == r1.toks
      && forall a | a in r1.heap && a != f[p] :: r2.heap[a] == r1.heap[a]
  {
    hide NamesMatch;
    var fields, at := g[p].fields, f[p];
    assert p in f && p != 0 && f[p] in r0.heap && f[p] < r0.next;
    assert r1.heap[at] == r0.heap[at];
    assert fields[..k + 1] == fields[..k] + [fields[k]];
    forall x | x in fields[..k] ensures x in f1 { assert x in f; }
    assert MapAll(f1, fields[..k + 1]) == MapAll(f, fields[..k]) + [f1[fields[k]]];
  }

  /** An isomorphism from what was printed onto what was read: it keeps null and the root, it is
      injective, and corresponding nodes have the same tag and corresponding fields. */
  ghost predicate Isomorphism(g: Graph, root: nat, f: map<nat, nat>, heap: Graph, root': nat) {
    && 0 in f && f[0] == 0 && root in f && f[root] == root'
    && (forall p, q | p in f && q in f && f[p] == f[q] :: p == q)
    && (forall p | p in f && p != 0 :: Finished(g, f, heap, p))
  }

  /** Printing then reading, for a root block whose nodes are shown as what they are, and which
      is not come across again: the reader accepts the text if and only if no block is come
      across again inside its own braces, and then what it makes is isomorphic to the graph that
      the root reaches, with all sharing and all cycles. */
  lemma ReadsIffClear(table: Table, g: Graph, root: nat) returns (f: map<nat, nat>)
    requires TableOk(table) && GraphOk(table, g) && root in g && IsBlock(g[root]) && g[root].fields != []
    requires root !in Refd(table, g, root)
    requires forall x | x in g[root].fields :: x == 0 || x in g
    requires ShowsAll(table, g, Refd(table, g, root), {0, root}, g[root].fields)
    ensures var q := Read(table, Printed(table, g, root));
      && q.Some? == ClearAll(table, g, Refd(table, g, root), {0, root}, g[root].fields, {root})
      && (q.Some? ==> Isomorphism(g, root, f, q.value.0.heap, q.value.1))
  {
    hide Matches, Grown, Pushed, TokensOfAll, PrintAll, Tokens, Determine, DetermineAll, Printed, ReadElements,
      ShowsAll, ClearAll;
    var refs, fields := Refd(table, g, root), g[root].fields;
    RootRefs(table, g, root);
    RootTokens(table, g, root);
    var r := Make(Reader(Tokens(Printed(table, g, root)), map["0" := 0], map[], 1), Ast(BASIC_BLOCK, []));
    var f0 := map[0 := 0, root := 1];
    StartsMatching(g, refs, r, f0, root);
    assert fields[0..] == fields && f0.Keys == {0, root};
    assert r.toks == TokensOfAll(table, g, refs, f0.Keys, fields) + Tail(false, []);
    var r1;
    f, r1 := ReadBlockElements(table, g, refs, f0, r, root, 0, {}, false, [], {root});
    if ClearAll(table, g, refs, {0, root}, fields, {root}) { RootFinished(g, refs, f0, r, f, r1, root, {root}); }
    hide Isomorphism;
  }

  /** Every such graph comes back. */
  lemma PrintThenRead(table: Table, g: Graph, root: nat) returns (f: map<nat, nat>)
    requires TableOk(table) && GraphOk(table, g) && (root == 0 || root in g) && Printable(table, g, root)
    ensures Read(table, Printed(table, g, root)).Some?
    ensures var (r, root') := Read(table, Printed(table, g, root)).value; Isomorphism(g, root, f, r.heap, root')
  {
    hide ShowsAll, ClearAll, Printed, Read, Isomorphism, Determine;
    ChildrenIn(table, g, root);
    RootNotAgain(table, g, root);
    f := ReadsIffClear(table, g, root);
  }

  lemma RootRefs(table: Table, g: Graph, root: nat)
    requires GraphOk(table, g) && root in g && IsBlock(g[root])
    requires forall x | x in g[root].fields :: x == 0 || x in g
    ensures root != 0
    ensures Determine(table, g, Refs({0}, {}), root) == DetermineAll(table, g, Refs({0, root}, {}), g[root].fields)
  {
    assert {0} + {root} == {0, root};
  }

  /** The tokens of the whole text are those of the root's elements. */
  lemma RootTokens(table: Table, g: Graph, root: nat)
    requires TableOk(table) && GraphOk(table, g) && root in g && IsBlock(g[root]) && g[root].fields != []
    requires forall x | x in g[root].fields :: x == 0 || x in g
    requires root !in Refd(table, g, root)
    ensures Tokens(Printed(table, g, root)) == TokensOfAll(table, g, Refd(table, g, root), {0, root}, g[root].fields)
  {
    hide TokensOfAll, PrintAll, Determine, DetermineAll, Printed;
    TextOfRoot(table, g, root);
    var refs := Refd(table, g, root);
    var toks := TokensOfAll(table, g, refs, {0, root}, g[root].fields);
    RowTokens(table, g, refs, {0, root}, g[root].fields, "", "");
    assert Printed(table, g, root) + "" == Printed(table, g, root);
    assert Tokens("") == [] && toks + [] == toks;
  }

  lemma StartsMatching(g: Graph, refs: set<nat>, r: Reader, f0: map<nat, nat>, root: nat)
    requires r.names == map["0" := 0] && r.next == 2 && r.heap == map[1 := Ast(BASIC_BLOCK, [])]
    requires f0 == map[0 := 0, root := 1]
    requires root in g && g[root].Ast? && root != 0
    ensures Matches(refs, f0, r, {root}) && Pushed(g, f0, r.heap, root, 0)
  {
    assert NameOf(0) == "0";
    PushedAtFirst(g, f0, r.heap, root);
  }

  lemma RootFinished(g: Graph, refs: set<nat>, f0: map<nat, nat>, r: Reader, f1: map<nat, nat>, r1: Reader, root: nat,
      open: set<nat>)
    requires f0 == map[0 := 0, root := 1] && root != 0 && root in g && g[root].Ast? && g[root].tag == BASIC_BLOCK
    requires Grown(g, refs, f0, r, f1, r1, Some(1), open) && Pushed(g, f1, r1.heap, root, |g[root].fields|)
    ensures Isomorphism(g, root, f1, r1.heap, 1)
  {
    hide NamesMatch;
    assert g[root].fields[..|g[root].fields|] == g[root].fields;
    forall p | p in f1 && p != 0 ensures Finished(g, f1, r1.heap, p) {
      if p != root { assert p !in f0; }
    }
  }

  /** The root is open throughout, so it is not among the nodes that are come across again. */
  lemma RootNotAgain(table: Table, g: Graph, root: nat)
    requires GraphOk(table, g) && root in g && IsBlock(g[root])
    requires forall x | x in g[root].fields :: x == 0 || x in g
    requires ClearAll(table, g, Refd(table, g, root), {0, root}, g[root].fields, {root})
    ensures root !in Refd(table, g, root)
  {
    hide ClearAll, Determine, DetermineAll;
    RootRefs(table, g, root);
    NotAgainAll(table, g, Refd(table, g, root), Refs({0, root}, {}), g[root].fields, root, {root});
  }

  lemma {:induction false} NotAgain(table: Table, g: Graph, refs: set<nat>, r: Refs, p: nat, root: nat, open: set<nat>)
    requires GraphOk(table, g) && 0 in r.seen && (p == 0 || p in g) && root !in r.again && root in open
    requires Clear(table, g, refs, r.seen, p, open)
    ensures root !in Determine(table, g, r, p).again
    decreases g.Keys - r.seen, 1, 0
  {
    if p !in r.seen {
      ChildrenIn(table, g, p);
      hide GraphOk, ClearAll;
      NotAgainAll(table, g, refs, Refs(r.seen + {p}, r.again), Children(g[p]), root, Opened(g, p, open));
    }
  }

  lemma {:induction false} NotAgainAll(table: Table, g: Graph, refs: set<nat>, r: Refs, fields: seq<nat>, root: nat,
      open: set<nat>)
    requires GraphOk(table, g) && 0 in r.seen && (forall f | f in fields :: f == 0 || f in g) && root !in r.again
    requires root in open && ClearAll(table, g, refs, r.seen, fields, open)
    ensures root !in DetermineAll(table, g, r, fields).again
    decreases g.Keys - r.seen, 2, |fields|
  {
    if fields != [] {
      SameSeen(table, g, refs, r, fields[0], true);
      NotAgain(table, g, refs, r, fields[0], root, open);
      NotAgainAll(table, g, refs, Determine(table, g, r, fields[0]), fields[1..], root, open);
    }
  }

  /** The root block is printed as its elements. */
  lemma TextOfRoot(table: Table, g: Graph, root: nat)
    requires GraphOk(table, g) && root in g && IsBlock(g[root]) && g[root].fields != []
    requires forall x | x in g[root].fields :: x == 0 || x in g
    requires root !in Refd(table, g, root)
    ensures Printed(table, g, root) == PrintAll(table, g, Refd(table, g, root), {0, root}, g[root].fields, "").text
  {
    hide PrintAll, Determine;
    assert {0} + {root} == {0, root};
    var row := PrintAll(table, g, Refd(table, g, root), {0, root}, g[root].fields, "").text;
    assert BlockText(false, |g[root].fields|, row) == row && "" + row == row;
  }

  /** An empty root block does not come back: it is printed as null, and read as a block with
      one null element. */
  lemma EmptyBlockIsLost(table: Table, g: Graph, root: nat)
    requires TableOk(table) && GraphOk(table, g) && root in g && g[root] == Ast(BASIC_BLOCK, [])
    ensures Printed(table, g, root) == "0"
    ensures var q := Read(table, Printed(table, g, root));
      q.Some? && q.value.1 in q.value.0.heap && q.value.0.heap[q.value.1] == Ast(BASIC_BLOCK, [0])
  {
    assert Determine(table, g, Refs({0}, {}), root).again == {};
    assert Printed(table, g, root) == "0" by { assert "" + "0" == "0"; }
    assert Tokens("0") == ["0"] by {
      assert IsWord("0");
      WordToken("0", "");
      assert "0" + "" == "0" && Tokens("") == [];
    }
    var r := Make(Reader(["0"], map["0" := 0], map[], 1), Ast(BASIC_BLOCK, []));
    var r1 := Push(r.(toks := []), 1, 0);
    assert ReadOne(table, r.(toks := []), "0") == Some((r.(toks := []), 0));
    assert ReadElements(table, r1, 1, false) == Some(r1);
    assert r.toks[1..] == [];
    assert ReadElements(table, r, 1, false) == Some(r1);
    assert r1.heap[1] == Ast(BASIC_BLOCK, [0]);
  }

  lemma OneInARow(table: Table, g: Graph, refs: set<nat>, seen: set<nat>, x: nat)
    requires GraphOk(table, g) && 0 in seen && (x == 0 || x in g)
    ensures PrintAll(table, g, refs, seen, [x], "").text == Print(table, g, refs, seen, x, true).text
  {
    hide GraphOk, Print;
    var t := Print(table, g, refs, seen, x, true);
    assert PrintAll(table, g, refs, t.seen, [x][1..], " ").text == "";
    assert "" + t.text + "" == t.text;
  }

  /** A nested block of one element that has no name does not come back either: its text is the
      text of its element. */
  lemma OneElementIsHidden(table: Table, g: Graph, refs: set<nat>, seen: set<nat>, p: nat, x: nat)
    requires GraphOk(table, g) && 0 in seen && p in g && p !in seen && p !in refs && g[p] == Ast(BASIC_BLOCK, [x])
    ensures x == 0 || x in g
    ensures Print(table, g, refs, seen, p, true).text == Print(table, g, refs, seen + {p}, x, true).text
  {
    hide GraphOk, PrintAll;
    ChildrenIn(table, g, p);
    assert x in Children(g[p]);
    OneInARow(table, g, refs, seen + {p}, x);
    assert Prefix(refs, p) == "";
  }
}
