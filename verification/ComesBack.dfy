/**
 Which graphs come back when they are printed and then read: exactly the printable ones. What the
 printer hides or leaves open is found by counting: every node that is read takes an opening
 bracket or brace of the text, and every brace that is opened must be closed.
 */
module ComesBack {
  import opened Mapping
  import opened Options
  import opened Printing
  import opened Reading
  import opened RoundTrip
  import opened Tags

  // ---------------------------------------------------------------- counting tokens

  /** A token is a word, or one bracket or brace. */
  predicate Proper(t: string) {
    IsWord(t) || (|t| == 1 && IsSpecial(t[0]))
  }

  ghost function Opens(ts: seq<string>): nat {
    multiset(ts)["["] + multiset(ts)["{"]
  }

  /** Braces that are opened and not closed. */
  ghost function Unclosed(ts: seq<string>): int {
    multiset(ts)["{"] as int - multiset(ts)["}"] as int
  }

  lemma CountJoin(a: seq<string>, b: seq<string>)
    ensures Opens(a + b) == Opens(a) + Opens(b) && Unclosed(a + b) == Unclosed(a) + Unclosed(b)
  {
    assert multiset(a + b) == multiset(a) + multiset(b);
  }

  lemma CountFirst(ts: seq<string>)
    requires ts != []
    ensures Opens(ts) == Opens([ts[0]]) + Opens(ts[1..]) && Unclosed(ts) == Unclosed([ts[0]]) + Unclosed(ts[1..])
  {
    assert ts == [ts[0]] + ts[1..];
    CountJoin([ts[0]], ts[1..]);
  }

  lemma CountWord(w: string)
    requires IsWord(w)
    ensures Opens([w]) == 0 && Unclosed([w]) == 0
  {
    assert !IsSpecial(w[0]);
  }

  lemma CountSpecial()
    ensures Opens(["["]) == 1 && Unclosed(["["]) == 0 && Opens(["]"]) == 0 && Unclosed(["]"]) == 0
    ensures Opens(["{"]) == 1 && Unclosed(["{"]) == 1 && Opens(["}"]) == 0 && Unclosed(["}"]) == -1
    ensures Opens([]) == 0 && Unclosed([]) == 0
  {
  }

  lemma {:induction false} TokensProper(s: string)
    ensures forall t | t in Tokens(s) :: Proper(t)
    decreases |s|
  {
    var t := SkipSpaces(s);
    if t != "" {
      var (w, rest) := Token(s);
      if !IsSpecial(t[0]) {
        assert !IsSpace(t[0]) && !Ends(t);
        assert WordLength(t) > 0 && IsWord(w);
      }
      TokensProper(rest);
    }
  }

  // ---------------------------------------------------------------- what is printed

  lemma CountName(refs: set<nat>, p: nat)
    ensures Opens(Name(refs, p)) == 0 && Unclosed(Name(refs, p)) == 0
  {
    hide NameOf;
    CountSpecial();
    NamedWord(p);
    CountWord("_" + NameOf(p));
  }

  lemma CountNode(refs: set<nat>, p: nat, name: string, row: seq<string>)
    requires IsWord(name)
    ensures var ts := Name(refs, p) + ["[", name] + row + ["]"];
      Opens(ts) == 1 + Opens(row) && Unclosed(ts) == Unclosed(row)
  {
    hide Opens, Unclosed, Name, IsWord;
    CountSpecial();
    CountName(refs, p);
    CountWord(name);
    CountJoin(["["], [name]);
    assert ["["] + [name] == ["[", name];
    CountJoin(Name(refs, p), ["[", name]);
    CountJoin(Name(refs, p) + ["[", name], row);
    CountJoin(Name(refs, p) + ["[", name] + row, ["]"]);
  }

  lemma CountBlock(refs: set<nat>, p: nat, row: seq<string>)
    ensures var ts := Name(refs, p) + ["{"] + row + ["}"];
      Opens(ts) == 1 + Opens(row) && Unclosed(ts) == Unclosed(row)
  {
    hide Opens, Unclosed, Name;
    CountSpecial();
    CountName(refs, p);
    CountJoin(Name(refs, p), ["{"]);
    CountJoin(Name(refs, p) + ["{"], row);
    CountJoin(Name(refs, p) + ["{"] + row, ["}"]);
  }

  lemma CountEmpty(refs: set<nat>, p: nat)
    ensures var ts := Name(refs, p) + (if p in refs then ["{", "0"] else ["0"]);
      Opens(ts) == Unclosed(ts) == if p in refs then 1 else 0
  {
    hide Opens, Unclosed, Name;
    CountSpecial();
    CountName(refs, p);
    assert IsWord("0");
    CountWord("0");
    CountJoin(["{"], ["0"]);
    assert ["{"] + ["0"] == ["{", "0"];
    CountJoin(Name(refs, p), if p in refs then ["{", "0"] else ["0"]);
  }

  /** No imv is among the nodes that were printed in between. */
  ghost predicate NoImv(g: Graph, seen: set<nat>, seen': set<nat>) {
    forall q | q in g && q in seen' && q !in seen :: g[q].Ast? && g[q].tag != IMV
  }

  /** A node's text opens at most as many brackets and braces as nodes are printed; fewer, or
      one that is not closed, when a node is not shown as what it is. */
  lemma {:induction false} PrintedCount(table: Table, g: Graph, refs: set<nat>, seen: set<nat>, p: nat)
    requires TableOk(table) && GraphOk(table, g) && 0 in seen && (p == 0 || p in g)
    ensures var ts, seen' := TokensOf(table, g, refs, seen, p), Print(table, g, refs, seen, p, true).seen;
      && Opens(ts) <= |seen'| - |seen| && Unclosed(ts) >= 0
      && (NoImv(g, seen, seen') && !Shows(table, g, refs, seen, p) ==>
            Opens(ts) < |seen'| - |seen| || Unclosed(ts) > 0)
    decreases g.Keys - seen, 1, 0
  {
    hide Opens, Unclosed, NameOf, Name, TokensOf, TokensOfAll, Print, PrintAll, ShowsAll;
    var ts, seen' := TokensOf(table, g, refs, seen, p), Print(table, g, refs, seen, p, true).seen;
    if p in seen {
      SeenText(table, g, refs, seen, p);
      SeenSame(table, g, refs, seen, p);
      NameIsWord(p);
      CountWord(NameOf(p));
    } else {
      ChildrenIn(table, g, p);
      assert g[p].Ast? && g[p].tag < |table| && IsWord(table[g[p].tag].name);
      var tag, fields, now := g[p].tag, g[p].fields, seen + {p};
      assert |now| == |seen| + 1;
      PrintParts(table, g, refs, seen, p);
      if tag == IMV {
        PrintImv(table, g, refs, seen, p);
        NameIsWord(fields[0]);
        CountWord(NameOf(fields[0]));
        CountNode(refs, p, table[IMV].name, [NameOf(fields[0])]);
        RowEnd(table, g, refs, now, [], {});
      } else if tag == BASIC_BLOCK && fields == [] {
        PrintEmpty(table, g, refs, seen, p);
        CountEmpty(refs, p);
        RowEnd(table, g, refs, now, [], {});
      } else {
        var row := TokensOfAll(table, g, refs, now, fields);
        RowCount(table, g, refs, now, fields, " ");
        if tag != BASIC_BLOCK {
          PrintNode(table, g, refs, seen, p);
          CountNode(refs, p, table[tag].name, row);
        } else if Braced(refs, p, |fields|, true) {
          PrintBlock(table, g, refs, seen, p);
          CountBlock(refs, p, row);
        } else {
          PrintHidden(table, g, refs, seen, p);
        }
      }
    }
  }

  lemma SeenSame(table: Table, g: Graph, refs: set<nat>, seen: set<nat>, p: nat)
    requires GraphOk(table, g) && 0 in seen && (p == 0 || p in g) && p in seen
    ensures Print(table, g, refs, seen, p, true).seen == seen && Shows(table, g, refs, seen, p)
  {
  }

  lemma PrintParts(table: Table, g: Graph, refs: set<nat>, seen: set<nat>, p: nat)
    requires GraphOk(table, g) && 0 in seen && p in g && p !in seen
    requires forall x | x in Children(g[p]) :: x == 0 || x in g
    ensures Print(table, g, refs, seen, p, true).seen == PrintAll(table, g, refs, seen + {p}, Children(g[p]), " ").seen
    ensures Shows(table, g, refs, seen, p) ==
      (Shown(refs, p, g[p]) && ShowsAll(table, g, refs, seen + {p}, Children(g[p])))
  {
    hide NameOf, PrintAll, ShowsAll, NodeText, BlockText, Prefix;
    if g[p].tag == BASIC_BLOCK {
      SameSeenAll(table, g, refs, Refs(seen + {p}, {}), g[p].fields, "");
      SameSeenAll(table, g, refs, Refs(seen + {p}, {}), g[p].fields, " ");
    } else if g[p].tag == IMV {
      RowEnd(table, g, refs, seen + {p}, [], {});
    }
  }

  lemma {:induction false} RowCount(table: Table, g: Graph, refs: set<nat>, seen: set<nat>, fields: seq<nat>,
      before: string)
    requires TableOk(table) && GraphOk(table, g) && 0 in seen && forall x | x in fields :: x == 0 || x in g
    ensures var ts := TokensOfAll(table, g, refs, seen, fields);
      var seen' := PrintAll(table, g, refs, seen, fields, before).seen;
      && Opens(ts) <= |seen'| - |seen| && Unclosed(ts) >= 0
      && (NoImv(g, seen, seen') && !ShowsAll(table, g, refs, seen, fields) ==>
            Opens(ts) < |seen'| - |seen| || Unclosed(ts) > 0)
    decreases g.Keys - seen, 2, |fields|
  {
    hide Opens, Unclosed, TokensOf, Print, GraphOk, TableOk, Shows;
    if fields == [] {
      CountSpecial();
    } else {
      var seen1 := Print(table, g, refs, seen, fields[0], true).seen;
      PrintedCount(table, g, refs, seen, fields[0]);
      RowCount(table, g, refs, seen1, fields[1..], " ");
      CountJoin(TokensOf(table, g, refs, seen, fields[0]), TokensOfAll(table, g, refs, seen1, fields[1..]));
    }
  }

  // ---------------------------------------------------------------- what is read

  function Asts(heap: Graph): set<nat> {
    set x | x in heap && heap[x].Ast?
  }

  /** The nodes there are, and the brackets and braces still to come. */
  ghost function Weight(r: Reader): nat {
    |Asts(r.heap)| + Opens(r.toks)
  }

  /** Node a is a basic block without a name that no pointer leads to. */
  ghost predicate Apart(r: Reader, a: nat) {
    && a < r.next && a in r.heap && r.heap[a].Ast? && r.heap[a].tag == BASIC_BLOCK
    && (forall k | k in r.names :: r.names[k] != a)
    && (forall x | x in r.heap && r.heap[x].Ast? :: a !in r.heap[x].fields)
  }

  ghost predicate Sane(r: Reader, a: nat) {
    && Apart(r, a) && a != 0
    && (forall t | t in r.toks :: Proper(t))
    && (forall k | k in r.names :: IsWord(k))
    && (forall x | x in r.heap :: x < r.next)
  }

  /** What reading something does that opens `opens` brackets or braces and closes `closes`
      braces beyond its own. */
  ghost predicate Step(r: Reader, r': Reader, a: nat, opens: nat, closes: int) {
    Sane(r', a) && Weight(r') <= Weight(r) + opens && Unclosed(r'.toks) == Unclosed(r.toks) + closes
  }

  lemma StepTrans(r: Reader, r1: Reader, r2: Reader, a: nat, opens: nat, closes: int, opens': nat, closes': int)
    requires Step(r, r1, a, opens, closes) && Step(r1, r2, a, opens', closes')
    ensures Step(r, r2, a, opens + opens', closes + closes')
  {
    hide Sane, Weight, Unclosed;
  }

  lemma Drop(r: Reader, a: nat)
    requires Sane(r, a) && r.toks != []
    ensures Proper(r.toks[0])
    ensures var r1 := r.(toks := r.toks[1..]);
      && Sane(r1, a) && Weight(r) == Weight(r1) + Opens([r.toks[0]])
      && Unclosed(r.toks) == Unclosed([r.toks[0]]) + Unclosed(r1.toks)
  {
    CountFirst(r.toks);
    assert r.toks[0] in r.toks;
  }

  lemma MakeAst(r: Reader, a: nat, c: Cell)
    requires Sane(r, a) && (c.Ast? ==> a !in c.fields)
    ensures Step(r, Make(r, c), a, if c.Ast? then 1 else 0, 0)
  {
    var r1 := Make(r, c);
    assert r.next !in r.heap;
    assert Asts(r1.heap) == Asts(r.heap) + if c.Ast? then {r.next} else {};
  }

  /** A store of pointers other than a into a node, which keeps its tag. */
  lemma StoredStep(r: Reader, r': Reader, a: nat, at: nat, fields: seq<nat>)
    requires Sane(r, a) && a !in fields && at in r.heap && r.heap[at].Ast?
    requires r' == r.(heap := r.heap[at := r.heap[at].(fields := fields)])
    ensures Step(r, r', a, 0, 0)
  {
    assert Asts(r'.heap) == Asts(r.heap);
  }

  lemma StoreStep(r: Reader, a: nat, at: nat, k: nat, v: nat)
    requires Sane(r, a) && v != a
    ensures Step(r, SetField(r, at, k, v), a, 0, 0) && SetField(r, at, k, v).toks == r.toks
    ensures Step(r, Push(r, at, v), a, 0, 0) && Push(r, at, v).toks == r.toks
    ensures Step(r, PushLocal(r, at, v), a, 0, 0) && PushLocal(r, at, v).toks == r.toks
  {
    hide Step;
    StepRefl(r, a);
    if at in r.heap && r.heap[at].Ast? {
      var fields := r.heap[at].fields;
      assert a !in fields;
      hide Sane;
      StoredStep(r, Push(r, at, v), a, at, fields + [v]);
      if k < |fields| { StoredStep(r, SetField(r, at, k, v), a, at, fields[k := v]); }
    }
  }

  lemma BindStep(r: Reader, a: nat, name: string, p: nat)
    requires Sane(r, a) && p != a && (name == "" || IsWord(name))
    ensures Step(r, r.(names := Bind(r.names, name, p)), a, 0, 0)
  {
  }

  lemma DeclaredName(first: string)
    requires Proper(first) && first[0] == '_'
    ensures first[1..] == "" || IsWord(first[1..])
    ensures IsWord(first)
  {
  }

  lemma {:induction false} OneCounts(table: Table, r: Reader, first: string, a: nat)
    requires TableOk(table) && Sane(r, a) && Proper(first) && ReadOne(table, r, first).Some?
    ensures var q := ReadOne(table, r, first).value;
      q.1 != a && Step(r, q.0, a, Opens([first]), Unclosed([first]))
    decreases |r.toks|, 1
  {
    hide Sane, Step, Opens, Unclosed, ReadNamed, Weight, TableOk;
    if first[0] == '_' {
      DeclaredName(first);
      CountWord(first);
      Drop(r, a);
      var r1 := r.(toks := r.toks[1..]);
      NamedCounts(table, r1, first[1..], r.toks[0], a);
      DropStep(r, r1, ReadNamed(table, r1, first[1..], r.toks[0]).value.0, a);
    } else {
      NamedCounts(table, r, "", first, a);
    }
  }

  /** The first token, and then the others. */
  lemma DropStep(r: Reader, r1: Reader, r2: Reader, a: nat)
    requires Sane(r, a) && r.toks != [] && r1 == r.(toks := r.toks[1..])
    requires Step(r1, r2, a, Opens([r.toks[0]]), Unclosed([r.toks[0]]))
    ensures Step(r, r2, a, 0, 0)
  {
    hide Sane, Weight, Opens, Unclosed;
    Drop(r, a);
  }

  lemma {:induction false} NamedCounts(table: Table, r: Reader, name: string, first: string, a: nat)
    requires TableOk(table) && Sane(r, a) && Proper(first) && (name == "" || IsWord(name))
    requires ReadNamed(table, r, name, first).Some?
    ensures var q := ReadNamed(table, r, name, first).value;
      q.1 != a && Step(r, q.0, a, Opens([first]), Unclosed([first]))
    decreases |r.toks|, 0, 2
  {
    hide Step, Opens, Unclosed, ReadBlock, ReadFields, Weight, FindTag, Bind, BlankFields;
    CountSpecial();
    assert a < r.next;
    if first == "{" {
      BlockCounts(table, r, true, a);
      var q := ReadBlock(table, r, true).value;
      SaneAfter(r, q.0, a, 1, 1);
      BindStep(q.0, a, name, q.1);
      StepTrans(r, q.0, q.0.(names := Bind(q.0.names, name, q.1)), a, 1, 1, 0, 0);
    } else if first == "[" {
      Drop(r, a);
      var tag := FindTag(table, r.toks[0]).value;
      assert IsWord(r.toks[0]);
      CountWord(r.toks[0]);
      var r1 := r.(toks := r.toks[1..]);
      var made := Make(r1, Ast(tag, BlankFields(table, tag)));
      BlankApart(table, tag, a);
      MakeAst(r1, a, Ast(tag, BlankFields(table, tag)));
      SaneAfter(r1, made, a, 1, 0);
      BindStep(made, a, name, r.next);
      var r2 := made.(names := Bind(made.names, name, r.next));
      SaneAfter(made, r2, a, 0, 0);
      StepTrans(r1, made, r2, a, 1, 0, 0, 0);
      FieldsCount(table, r2, r.next, tag, 0, a);
      var r' := ReadFields(table, r2, r.next, tag, 0).value;
      StepTrans(r1, r2, r', a, 1, 0, 0, 0);
      StepFrom(r, r1, r', a, 1, 0);
    } else {
      CountWord(first);
      StepRefl(r, a);
    }
  }

  lemma BlankApart(table: Table, tag: nat, a: nat)
    requires tag < |table| && a != 0
    ensures a !in BlankFields(table, tag)
  {
  }

  lemma SaneAfter(r: Reader, r': Reader, a: nat, opens: nat, closes: int)
    requires Step(r, r', a, opens, closes)
    ensures Sane(r', a)
  {
  }

  lemma StepRefl(r: Reader, a: nat)
    requires Sane(r, a)
    ensures Step(r, r, a, 0, 0)
  {
  }

  /** A word was taken off before. */
  lemma StepFrom(r: Reader, r1: Reader, r': Reader, a: nat, opens: nat, closes: int)
    requires r.toks != [] && r1 == r.(toks := r.toks[1..]) && Sane(r, a)
    requires Opens([r.toks[0]]) == 0 && Unclosed([r.toks[0]]) == 0 && Step(r1, r', a, opens, closes)
    ensures Step(r, r', a, opens, closes)
  {
    hide Sane, Weight, Opens, Unclosed;
    Drop(r, a);
  }

  lemma NumberIsWord(token: string)
    requires Proper(token) && IsNumber(token)
    ensures IsWord(token)
  {
    assert '0' <= token[0] <= '9';
  }

  lemma {:induction false} FieldsCount(table: Table, r: Reader, at: nat, tag: nat, k: nat, a: nat)
    requires TableOk(table) && Sane(r, a) && tag < |table| && ReadFields(table, r, at, tag, k).Some?
    ensures Step(r, ReadFields(table, r, at, tag, k).value, a, 0, 0)
    decreases |r.toks|, 0, 0
  {
    hide Step, Opens, Unclosed, ReadBlock, ReadOne, Weight, SetField, PushLocal, IsNumber, Decimal, TableOk;
    CountSpecial();
    Drop(r, a);
    var token, r1 := r.toks[0], r.(toks := r.toks[1..]);
    if token == "]" {
      StepRefl(r1, a);
      StepFrom(r, r1, r1, a, 0, 0);
    } else if k < table[tag].fields || tag == BASIC_BLOCK {
      BraceIsOne(table, r1);
      OneCounts(table, r1, token, a);
      var q := ReadOne(table, r1, token).value;
      var r2 := if tag == BASIC_BLOCK then PushLocal(q.0, at, q.1) else SetField(q.0, at, k, q.1);
      DropStep(r, r1, q.0, a);
      SaneAfter(r, q.0, a, 0, 0);
      StoreStep(q.0, a, at, k, q.1);
      FieldsAfter(table, r, q.0, r2, at, tag, k + 1, a);
    } else if IsNumber(token) {
      NumberIsWord(token);
      CountWord(token);
      var made := Make(r1, Number(Decimal(token)));
      MakeAst(r1, a, Number(Decimal(token)));
      StepFrom(r, r1, made, a, 0, 0);
      SaneAfter(r, made, a, 0, 0);
      StoreStep(made, a, at, 0, r1.next);
      FieldsAfter(table, r, made, SetField(made, at, 0, r1.next), at, tag, 1, a);
    } else {
      CountWord(token);
      StepRefl(r1, a);
      StepFrom(r, r1, r1, a, 0, 0);
      StoreStep(r1, a, at, 0, r1.names[token]);
      FieldsAfter(table, r, r1, SetField(r1, at, 0, r1.names[token]), at, tag, 1, a);
    }
  }

  lemma {:induction false} FieldsAfter(table: Table, r: Reader, r1: Reader, r2: Reader, at: nat, tag: nat, k: nat,
      a: nat)
    requires TableOk(table) && tag < |table| && Step(r, r1, a, 0, 0) && Step(r1, r2, a, 0, 0)
    requires |r2.toks| < |r.toks| && ReadFields(table, r2, at, tag, k).Some?
    ensures Step(r, ReadFields(table, r2, at, tag, k).value, a, 0, 0)
    decreases |r2.toks|, 0, 1
  {
    hide Step, ReadFields, TableOk;
    SaneAfter(r1, r2, a, 0, 0);
    FieldsCount(table, r2, at, tag, k, a);
    StepTrans(r, r1, r2, a, 0, 0, 0, 0);
    StepTrans(r, r2, ReadFields(table, r2, at, tag, k).value, a, 0, 0, 0, 0);
  }

  lemma {:induction false} BlockCounts(table: Table, r: Reader, brace: bool, a: nat)
    requires TableOk(table) && Sane(r, a) && ReadBlock(table, r, brace).Some?
    ensures var q := ReadBlock(table, r, brace).value;
      q.1 == r.next && q.1 != a && Step(r, q.0, a, 1, if brace then 1 else 0)
    decreases |r.toks|, 0, 1
  {
    hide Step, ReadElements, TableOk;
    assert a < r.next;
    var r1 := Make(r, Ast(BASIC_BLOCK, []));
    MakeAst(r, a, Ast(BASIC_BLOCK, []));
    SaneAfter(r, r1, a, 1, 0);
    ElementsCount(table, r1, r.next, brace, a);
    StepTrans(r, r1, ReadElements(table, r1, r.next, brace).value, a, 1, 0, 0, if brace then 1 else 0);
  }

  lemma {:induction false} ElementsCount(table: Table, r: Reader, at: nat, brace: bool, a: nat)
    requires TableOk(table) && Sane(r, a) && ReadElements(table, r, at, brace).Some?
    ensures var r' := ReadElements(table, r, at, brace).value;
      Step(r, r', a, 0, if brace then 1 else 0) && (!brace ==> r'.toks == [])
    decreases |r.toks|, 0, 0
  {
    hide Opens, Unclosed, ReadOne, Weight, Push, TableOk, Sane;
    CountSpecial();
    if r.toks == [] {
      StepRefl(r, a);
    } else {
      Drop(r, a);
      var word, r1 := r.toks[0], r.(toks := r.toks[1..]);
      assert word != "";
      if word == (if brace then "}" else "") {
        assert Step(r, r1, a, 0, 1);
      } else {
        hide Step;
        OneCounts(table, r1, word, a);
        var q := ReadOne(table, r1, word).value;
        DropStep(r, r1, q.0, a);
        SaneAfter(r, q.0, a, 0, 0);
        StoreStep(q.0, a, at, 0, q.1);
        var r2 := Push(q.0, at, q.1);
        SaneAfter(q.0, r2, a, 0, 0);
        ElementsCount(table, r2, at, brace, a);
        StepTrans(r, q.0, r2, a, 0, 0, 0, 0);
        StepTrans(r, r2, ReadElements(table, r2, at, brace).value, a, 0, 0, 0, if brace then 1 else 0);
      }
    }
  }

  /** Whatever text is read, the root is a basic block that nothing points to, the text closes
      what it opens, and it opens a bracket or brace for every other node. */
  lemma ReadCounts(table: Table, text: string)
    requires TableOk(table) && Read(table, text).Some?
    ensures var q := Read(table, text).value;
      && q.1 == 1 && Apart(q.0, 1)
      && |Asts(q.0.heap)| <= 1 + Opens(Tokens(text)) && Unclosed(Tokens(text)) == 0
  {
    hide Tokens, ReadElements, TableOk, IsWord;
    TokensProper(text);
    CountSpecial();
    var r := Make(Reader(Tokens(text), map["0" := 0], map[], 1), Ast(BASIC_BLOCK, []));
    ZeroIsWord();
    assert Asts(r.heap) == {1};
    ElementsCount(table, r, 1, false, 1);
  }

  lemma ZeroIsWord()
    ensures IsWord("0")
  {
  }

  // ---------------------------------------------------------------- what an isomorphism holds

  /** Nodes, and null, with all that their fields point to. */
  ghost predicate Whole(g: Graph, s: set<nat>) {
    0 in s && forall x | x in s && x != 0 :: x in g && forall c | c in Children(g[x]) :: c in s
  }

  ghost predicate PointedAt(g: Graph, s: set<nat>, q: nat) {
    exists x :: x in s && x in g && q in Children(g[x])
  }

  lemma {:induction false} DeterminedIn(table: Table, g: Graph, r: Refs, p: nat, s: set<nat>)
    requires GraphOk(table, g) && 0 in r.seen && Whole(g, s) && p in s
    ensures p == 0 || p in g
    ensures Determine(table, g, r, p).seen <= r.seen + s
    ensures forall q | q in Determine(table, g, r, p).again && q !in r.again :: q == p || PointedAt(g, s, q)
    decreases g.Keys - r.seen, 1, 0
  {
    if p !in r.seen {
      ChildrenIn(table, g, p);
      hide GraphOk;
      DeterminedAllIn(table, g, Refs(r.seen + {p}, r.again), Children(g[p]), s);
    }
  }

  lemma {:induction false} DeterminedAllIn(table: Table, g: Graph, r: Refs, fields: seq<nat>, s: set<nat>)
    requires GraphOk(table, g) && 0 in r.seen && Whole(g, s) && forall x | x in fields :: x in s && (x == 0 || x in g)
    ensures DetermineAll(table, g, r, fields).seen <= r.seen + s
    ensures forall q | q in DetermineAll(table, g, r, fields).again && q !in r.again ::
      q in fields || PointedAt(g, s, q)
    decreases g.Keys - r.seen, 2, |fields|
  {
    hide GraphOk, Whole;
    if fields != [] {
      DeterminedIn(table, g, r, fields[0], s);
      DeterminedAllIn(table, g, Determine(table, g, r, fields[0]), fields[1..], s);
    }
  }

  lemma IsomorphismIsWhole(g: Graph, root: nat, f: map<nat, nat>, heap: Graph, root': nat)
    requires Isomorphism(g, root, f, heap, root')
    ensures Whole(g, f.Keys)
  {
    forall x | x in f.Keys && x != 0 ensures x in g && forall c | c in Children(g[x]) :: c in f.Keys {
      assert Finished(g, f, heap, x);
    }
  }

  lemma {:induction false} NoMore(s: set<nat>, f: map<nat, nat>, into: set<nat>)
    requires forall x | x in s :: x in f && f[x] in into
    requires forall x, y | x in s && y in s && f[x] == f[y] :: x == y
    ensures |s| <= |into|
    decreases |s|
  {
    if s != {} {
      var x :| x in s;
      NoMore(s - {x}, f, into - {f[x]});
    }
  }

  /** A root that is come across again would have to be pointed to. */
  lemma RootIsApart(table: Table, g: Graph, root: nat, f: map<nat, nat>, r: Reader)
    requires GraphOk(table, g) && root in g && Isomorphism(g, root, f, r.heap, 1) && Apart(r, 1)
    ensures root !in Refd(table, g, root)
  {
    hide Determine, GraphOk;
    if root in Refd(table, g, root) {
      IsomorphismIsWhole(g, root, f, r.heap, 1);
      DetermineRoot(table, g, root, f.Keys);
      var x :| x in f.Keys && x in g && root in Children(g[x]);
      ZeroIsNoNode(table, g);
      assert Finished(g, f, r.heap, x);
      PointerComesBack(g, f, r.heap, x, root);
    }
  }

  lemma PointerComesBack(g: Graph, f: map<nat, nat>, heap: Graph, x: nat, p: nat)
    requires Finished(g, f, heap, x) && p in g[x].fields
    ensures f[p] in heap[f[x]].fields
  {
    var i :| 0 <= i < |g[x].fields| && g[x].fields[i] == p;
    assert MapAll(f, g[x].fields)[i] == f[p];
  }

  lemma ZeroIsNoNode(table: Table, g: Graph)
    requires GraphOk(table, g)
    ensures 0 !in g
  {
  }

  lemma DetermineRoot(table: Table, g: Graph, root: nat, s: set<nat>)
    requires GraphOk(table, g) && root in g && Whole(g, s) && root in s
    ensures Determine(table, g, Refs({0}, {}), root).seen <= s
    ensures root in Refd(table, g, root) ==> PointedAt(g, s, root)
  {
    ChildrenIn(table, g, root);
    DeterminedAllIn(table, g, Refs({0} + {root}, {}), Children(g[root]), s);
    hide DetermineAll;
    assert root in Children(g[root]) ==> PointedAt(g, s, root);
  }

  // ---------------------------------------------------------------- exactly the printable graphs

  /** What an imv points to is an object, and not an AST. */
  ghost predicate ImvsApart(g: Graph) {
    forall p | p in g && g[p].Ast? && g[p].tag == IMV && |g[p].fields| > 0 ::
      g[p].fields[0] != 0 && g[p].fields[0] !in g
  }

  /** The reader accepts the printed text, and makes an isomorphic graph. */
  ghost predicate ComesBack(table: Table, g: Graph, root: nat)
    requires GraphOk(table, g) && (root == 0 || root in g)
  {
    var q := Read(table, Printed(table, g, root));
    q.Some? && exists f :: Isomorphism(g, root, f, q.value.0.heap, q.value.1)
  }

  lemma NoImvInside(table: Table, g: Graph, root: nat, f: map<nat, nat>, heap: Graph, s: set<nat>)
    requires GraphOk(table, g) && ImvsApart(g) && Isomorphism(g, root, f, heap, 1) && s <= f.Keys
    ensures NoImv(g, {0}, s)
  {
    IsomorphismIsWhole(g, root, f, heap, 1);
    forall q | q in g && q in s && q !in {0} ensures g[q].Ast? && g[q].tag != IMV {
      assert Finished(g, f, heap, q);
      assert g[q].fields != [] ==> g[q].fields[0] in g[q].fields;
    }
  }

  /** Enough was opened, and all of it was closed, so every node is shown as what it is. */
  lemma AllIsShown(table: Table, g: Graph, root: nat, f: map<nat, nat>)
    requires TableOk(table) && GraphOk(table, g) && ImvsApart(g)
    requires root in g && IsBlock(g[root]) && g[root].fields != []
    requires forall x | x in g[root].fields :: x == 0 || x in g
    requires root !in Refd(table, g, root)
    requires var q := Read(table, Printed(table, g, root));
      q.Some? && Isomorphism(g, root, f, q.value.0.heap, q.value.1)
    ensures ShowsAll(table, g, Refd(table, g, root), {0, root}, g[root].fields)
  {
    hide Determine, DetermineAll, Printed, Read, Tokens, TokensOfAll, PrintAll, Opens, Unclosed, ShowsAll, Apart,
      Isomorphism, GraphOk, TableOk, ImvsApart, NoImv;
    var refs, fields := Refd(table, g, root), g[root].fields;
    var q := Read(table, Printed(table, g, root)).value;
    var seen' := PrintAll(table, g, refs, {0, root}, fields, "").seen;
    ReadCounts(table, Printed(table, g, root));
    RootTokens(table, g, root);
    RowCount(table, g, refs, {0, root}, fields, "");
    IsomorphismIsWhole(g, root, f, q.0.heap, 1);
    InIsomorphism(g, root, f, q.0.heap);
    DetermineRoot(table, g, root, f.Keys);
    RootRefs(table, g, root);
    SameSeenAll(table, g, refs, Refs({0, root}, {}), fields, "");
    NoImvInside(table, g, root, f, q.0.heap, seen');
    Inside(g, root, f, q.0.heap, seen');
    NoImvFrom(g, {0}, {0, root}, seen');
    assert |{0, root}| == 2;
    assert |seen' - {0}| == |seen'| - 1;
  }

  lemma InIsomorphism(g: Graph, root: nat, f: map<nat, nat>, heap: Graph)
    requires Isomorphism(g, root, f, heap, 1)
    ensures root in f.Keys
  {
  }

  lemma NoImvFrom(g: Graph, seen: set<nat>, seen1: set<nat>, seen': set<nat>)
    requires NoImv(g, seen, seen') && seen <= seen1
    ensures NoImv(g, seen1, seen')
  {
  }

  /** There are at least as many nodes as were printed. */
  lemma Inside(g: Graph, root: nat, f: map<nat, nat>, heap: Graph, s: set<nat>)
    requires Isomorphism(g, root, f, heap, 1) && s <= f.Keys
    ensures |s - {0}| <= |Asts(heap)|
  {
    forall x | x in s - {0} ensures x in f && f[x] in Asts(heap) {
      assert Finished(g, f, heap, x);
    }
    NoMore(s - {0}, f, Asts(heap));
  }

  /** A graph comes back if and only if it is printable. */
  lemma ComesBackIffPrintable(table: Table, g: Graph, root: nat)
    requires TableOk(table) && GraphOk(table, g) && ImvsApart(g) && (root == 0 || root in g)
    ensures ComesBack(table, g, root) <==> Printable(table, g, root)
  {
    hide Printed, Read, Determine, Isomorphism, ShowsAll, ClearAll, TableOk, GraphOk, Apart;
    if Printable(table, g, root) {
      var f := PrintThenRead(table, g, root);
    }
    if ComesBack(table, g, root) {
      var q := Read(table, Printed(table, g, root)).value;
      var f :| Isomorphism(g, root, f, q.0.heap, q.1);
      ReadCounts(table, Printed(table, g, root));
      RootIsBlock(table, g, root, f, q.0);
      ChildrenIn(table, g, root);
      RootIsApart(table, g, root, f, q.0);
      AllIsShown(table, g, root, f);
      var f' := ReadsIffClear(table, g, root);
    }
  }

  lemma RootIsBlock(table: Table, g: Graph, root: nat, f: map<nat, nat>, r: Reader)
    requires TableOk(table) && GraphOk(table, g) && (root == 0 || root in g)
    requires Read(table, Printed(table, g, root)) == Some((r, 1)) && Isomorphism(g, root, f, r.heap, 1) && Apart(r, 1)
    ensures root in g && IsBlock(g[root]) && g[root].fields != []
  {
    hide Printed, Read, TableOk, GraphOk;
    assert root != 0;
    assert Finished(g, f, r.heap, root);
    assert g[root].fields == [] ==> MapAll(f, g[root].fields) == [];
    if g[root].fields == [] { EmptyBlockIsLost(table, g, root); }
  }

  // ---------------------------------------------------------------- imvs

  /** Tags have names that look neither like an address nor like a declaration. */
  ghost predicate PlainTags(table: Table) {
    forall i | 0 <= i < |table| :: table[i].name != "" && table[i].name[0] != '0' && table[i].name[0] != '_'
  }

  /** The word is an address that is not known, and that nothing still to be read declares. */
  ghost predicate Strange(r: Reader, t: string) {
    |t| > 1 && t[0] == '0' && t[1] == 'x' && t !in r.names && ("_" + t) !in r.toks
  }

  /** Reading skips no such word: if it was ahead, it still is. */
  ghost predicate Skips(r: Reader, r': Reader, t: string) {
    Strange(r', t) && (t in r.toks ==> t in r'.toks) && forall w | w in r'.toks :: w in r.toks
  }

  lemma SkipsTrans(r: Reader, r1: Reader, r2: Reader, t: string)
    requires Skips(r, r1, t) && Skips(r1, r2, t)
    ensures Skips(r, r2, t)
  {
  }

  lemma SkipsFirst(r: Reader, t: string)
    requires Strange(r, t) && r.toks != []
    ensures r.toks[0] != "_" + t && Strange(r.(toks := r.toks[1..]), t)
    ensures r.toks[0] != t ==> Skips(r, r.(toks := r.toks[1..]), t)
  {
    assert r.toks == [r.toks[0]] + r.toks[1..];
  }

  lemma SkipsSame(r: Reader, r': Reader, t: string)
    requires Strange(r, t) && r'.toks == r.toks && t !in r'.names
    ensures Skips(r, r', t)
  {
  }

  lemma {:induction false} OneSkips(table: Table, r: Reader, first: string, t: string)
    requires PlainTags(table) && Strange(r, t) && first != "_" + t && ReadOne(table, r, first).Some?
    ensures first != t && Skips(r, ReadOne(table, r, first).value.0, t)
    decreases |r.toks|, 1
  {
    hide PlainTags, ReadNamed, Skips;
    if |first| > 0 && first[0] == '_' {
      SkipsFirst(r, t);
      var r1 := r.(toks := r.toks[1..]);
      assert first == "_" + first[1..];
      NamedSkips(table, r1, first[1..], r.toks[0], t);
      SkipsTrans(r, r1, ReadNamed(table, r1, first[1..], r.toks[0]).value.0, t);
    } else {
      NamedSkips(table, r, "", first, t);
    }
  }

  lemma {:induction false} NamedSkips(table: Table, r: Reader, name: string, first: string, t: string)
    requires PlainTags(table) && Strange(r, t) && name != t && ReadNamed(table, r, name, first).Some?
    ensures first != t && Skips(r, ReadNamed(table, r, name, first).value.0, t)
    decreases |r.toks|, 0, 2
  {
    hide ReadBlock, ReadFields, FindTag, BlankFields, Skips;
    if first == "{" {
      BlockSkips(table, r, true, t);
      var q := ReadBlock(table, r, true).value;
      SkipsStrange(r, q.0, t);
      SkipsSame(q.0, q.0.(names := Bind(q.0.names, name, q.1)), t);
      SkipsTrans(r, q.0, q.0.(names := Bind(q.0.names, name, q.1)), t);
    } else if first == "[" {
      SkipsFirst(r, t);
      var tag := FindTag(table, r.toks[0]).value;
      var r1 := r.(toks := r.toks[1..]);
      var made := Make(r1, Ast(tag, BlankFields(table, tag)));
      var r2 := made.(names := Bind(made.names, name, r.next));
      SkipsSame(r1, r2, t);
      SkipsStrange(r1, r2, t);
      FieldsSkip(table, r2, r.next, tag, 0, t);
      var r' := ReadFields(table, r2, r.next, tag, 0).value;
      SkipsTrans(r, r1, r2, t);
      SkipsTrans(r, r2, r', t);
    } else {
      SkipsSame(r, r, t);
    }
  }

  lemma SkipsStrange(r: Reader, r': Reader, t: string)
    requires Skips(r, r', t)
    ensures Strange(r', t)
  {
  }

  lemma StoreSkips(r: Reader, at: nat, k: nat, v: nat, t: string)
    requires Strange(r, t)
    ensures Skips(r, SetField(r, at, k, v), t) && SetField(r, at, k, v).toks == r.toks
    ensures Skips(r, Push(r, at, v), t) && Push(r, at, v).toks == r.toks
    ensures Skips(r, PushLocal(r, at, v), t) && PushLocal(r, at, v).toks == r.toks
  {
    hide Skips;
    SkipsSame(r, SetField(r, at, k, v), t);
    SkipsSame(r, Push(r, at, v), t);
    SkipsSame(r, PushLocal(r, at, v), t);
  }

  lemma {:induction false} FieldsSkip(table: Table, r: Reader, at: nat, tag: nat, k: nat, t: string)
    requires PlainTags(table) && Strange(r, t) && tag < |table| && ReadFields(table, r, at, tag, k).Some?
    ensures Skips(r, ReadFields(table, r, at, tag, k).value, t)
    decreases |r.toks|, 0, 0
  {
    hide ReadBlock, ReadOne, SetField, PushLocal, Decimal, PlainTags, Skips;
    SkipsFirst(r, t);
    var token, r1 := r.toks[0], r.(toks := r.toks[1..]);
    if token == "]" {
    } else if k < table[tag].fields || tag == BASIC_BLOCK {
      BraceIsOne(table, r1);
      OneSkips(table, r1, token, t);
      var q := ReadOne(table, r1, token).value;
      var r2 := if tag == BASIC_BLOCK then PushLocal(q.0, at, q.1) else SetField(q.0, at, k, q.1);
      SkipsTrans(r, r1, q.0, t);
      SkipsStrange(r, q.0, t);
      StoreSkips(q.0, at, k, q.1, t);
      FieldsSkipAfter(table, r, q.0, r2, at, tag, k + 1, t);
    } else if IsNumber(token) {
      assert !('0' <= t[1] <= '9');
      var made := Make(r1, Number(Decimal(token)));
      SkipsSame(r1, made, t);
      SkipsTrans(r, r1, made, t);
      SkipsStrange(r, made, t);
      StoreSkips(made, at, 0, r1.next, t);
      FieldsSkipAfter(table, r, made, SetField(made, at, 0, r1.next), at, tag, 1, t);
    } else {
      StoreSkips(r1, at, 0, r1.names[token], t);
      FieldsSkipAfter(table, r, r1, SetField(r1, at, 0, r1.names[token]), at, tag, 1, t);
    }
  }

  lemma {:induction false} FieldsSkipAfter(table: Table, r: Reader, r1: Reader, r2: Reader, at: nat, tag: nat, k: nat,
      t: string)
    requires PlainTags(table) && tag < |table| && Skips(r, r1, t) && Skips(r1, r2, t)
    requires |r2.toks| < |r.toks| && ReadFields(table, r2, at, tag, k).Some?
    ensures Skips(r, ReadFields(table, r2, at, tag, k).value, t)
    decreases |r2.toks|, 0, 1
  {
    hide Skips, ReadFields, PlainTags;
    SkipsStrange(r1, r2, t);
    FieldsSkip(table, r2, at, tag, k, t);
    SkipsTrans(r, r1, r2, t);
    SkipsTrans(r, r2, ReadFields(table, r2, at, tag, k).value, t);
  }

  lemma {:induction false} BlockSkips(table: Table, r: Reader, brace: bool, t: string)
    requires PlainTags(table) && Strange(r, t) && ReadBlock(table, r, brace).Some?
    ensures Skips(r, ReadBlock(table, r, brace).value.0, t)
    decreases |r.toks|, 0, 1
  {
    hide Skips, ReadElements, PlainTags;
    var r1 := Make(r, Ast(BASIC_BLOCK, []));
    SkipsSame(r, r1, t);
    SkipsStrange(r, r1, t);
    ElementsSkip(table, r1, r.next, brace, t);
    SkipsTrans(r, r1, ReadElements(table, r1, r.next, brace).value, t);
  }

  lemma {:induction false} ElementsSkip(table: Table, r: Reader, at: nat, brace: bool, t: string)
    requires PlainTags(table) && Strange(r, t) && ReadElements(table, r, at, brace).Some?
    ensures var r' := ReadElements(table, r, at, brace).value;
      Skips(r, r', t) && (!brace && "" !in r.toks ==> r'.toks == [])
    decreases |r.toks|, 0, 0
  {
    hide ReadOne, Push, PlainTags, Skips;
    if r.toks == [] {
      SkipsSame(r, r, t);
    } else {
      SkipsFirst(r, t);
      var word, r1 := r.toks[0], r.(toks := r.toks[1..]);
      if word != (if brace then "}" else "") {
        OneSkips(table, r1, word, t);
        var q := ReadOne(table, r1, word).value;
        var r2 := Push(q.0, at, q.1);
        SkipsTrans(r, r1, q.0, t);
        SkipsStrange(r, q.0, t);
        StoreSkips(q.0, at, 0, q.1, t);
        SkipsTrans(r, q.0, r2, t);
        SkipsStrange(r, r2, t);
        ElementsSkip(table, r2, at, brace, t);
        SkipsTrans(r, r2, ReadElements(table, r2, at, brace).value, t);
        NoNewWords(r, r2, t);
      }
    }
  }

  lemma NoNewWords(r: Reader, r': Reader, t: string)
    requires Skips(r, r', t)
    ensures forall w | w in r'.toks :: w in r.toks
  {
  }

  /** Reading some nodes' text shows the object of every imv among them, and declares only
      names of nodes. */
  lemma {:induction false} ImvIsShown(table: Table, g: Graph, refs: set<nat>, seen: set<nat>, p: nat, q: nat)
    requires TableOk(table) && PlainTags(table) && GraphOk(table, g) && 0 in seen && (p == 0 || p in g)
    requires q in g && g[q].Ast? && g[q].tag == IMV && ImvsApart(g)
    ensures |g[q].fields| == 1
    ensures var ts := TokensOf(table, g, refs, seen, p);
      && (q in Print(table, g, refs, seen, p, true).seen && q !in seen ==> NameOf(g[q].fields[0]) in ts)
      && ("_" + NameOf(g[q].fields[0])) !in ts
    decreases g.Keys - seen, 1, 0
  {
    hide NameOf, Print, PrintAll, TokensOf, TokensOfAll, PlainTags, ImvsApart;
    var v := g[q].fields[0];
    ObjectIsStrange(table, g, refs, q, p);
    if p in seen {
      SeenText(table, g, refs, seen, p);
      SeenSame(table, g, refs, seen, p);
    } else {
      ChildrenIn(table, g, p);
      PrintParts(table, g, refs, seen, p);
      var tag, fields, now := g[p].tag, g[p].fields, seen + {p};
      if tag == IMV {
        PrintImv(table, g, refs, seen, p);
        RowEnd(table, g, refs, now, [], {});
        NameIsWord(fields[0]);
      } else if tag == BASIC_BLOCK && fields == [] {
        PrintEmpty(table, g, refs, seen, p);
        RowEnd(table, g, refs, now, [], {});
      } else {
        RowShowsImv(table, g, refs, now, fields, q);
        if tag != BASIC_BLOCK {
          PrintNode(table, g, refs, seen, p);
        } else if Braced(refs, p, |fields|, true) {
          PrintBlock(table, g, refs, seen, p);
        } else {
          PrintHidden(table, g, refs, seen, p);
        }
      }
    }
  }

  /** Neither brackets nor tags nor declared names look like a declaration of an imv's object. */
  lemma ObjectIsStrange(table: Table, g: Graph, refs: set<nat>, q: nat, p: nat)
    requires TableOk(table) && PlainTags(table) && GraphOk(table, g) && ImvsApart(g) && (p == 0 || p in g)
    requires q in g && g[q].Ast? && g[q].tag == IMV
    ensures |g[q].fields| == 1
    ensures var t := "_" + NameOf(g[q].fields[0]);
      && t !in Name(refs, p) && t !in ["[", "]", "{", "}", "0"] && NameOf(p) != t
      && forall i | 0 <= i < |table| :: table[i].name != t
  {
    var v := g[q].fields[0];
    var t := "_" + NameOf(v);
    NameIsWord(p);
    assert t[1..] == NameOf(v) && t[0] == '_';
    if t in Name(refs, p) {
      assert ("_" + NameOf(p))[1..] == NameOf(p);
      NamesDiffer(p, v);
    }
  }

  lemma {:induction false} RowShowsImv(table: Table, g: Graph, refs: set<nat>, seen: set<nat>, fields: seq<nat>, q: nat)
    requires TableOk(table) && PlainTags(table) && GraphOk(table, g) && 0 in seen
    requires forall x | x in fields :: x == 0 || x in g
    requires q in g && g[q].Ast? && g[q].tag == IMV && ImvsApart(g)
    ensures |g[q].fields| == 1
    ensures var ts := TokensOfAll(table, g, refs, seen, fields);
      && (q in PrintAll(table, g, refs, seen, fields, " ").seen && q !in seen ==> NameOf(g[q].fields[0]) in ts)
      && ("_" + NameOf(g[q].fields[0])) !in ts
    decreases g.Keys - seen, 2, |fields|
  {
    hide NameOf, Print, TokensOf, PlainTags, TableOk, GraphOk, ImvsApart;
    ImvHasObject(table, g, q);
    if fields != [] {
      var seen1 := Print(table, g, refs, seen, fields[0], true).seen;
      ImvIsShown(table, g, refs, seen, fields[0], q);
      RowShowsImv(table, g, refs, seen1, fields[1..], q);
    }
  }

  lemma ImvHasObject(table: Table, g: Graph, q: nat)
    requires GraphOk(table, g) && q in g && g[q].Ast? && g[q].tag == IMV
    ensures |g[q].fields| == 1
  {
  }

  /** Text with an imv is refused: what it points to is shown as an address that has no name. */
  lemma ImvIsRefused(table: Table, g: Graph, root: nat, q: nat)
    requires TableOk(table) && PlainTags(table) && GraphOk(table, g) && ImvsApart(g)
    requires root in g && IsBlock(g[root]) && g[root].fields != [] && root !in Refd(table, g, root)
    requires q in Determine(table, g, Refs({0}, {}), root).seen && q in g && g[q].Ast? && g[q].tag == IMV
    ensures Read(table, Printed(table, g, root)) == None
  {
    hide Determine, DetermineAll, Printed, Tokens, TokensOfAll, PrintAll, ReadElements, PlainTags, TableOk, GraphOk,
      NameOf, Skips;
    ChildrenIn(table, g, root);
    ImvHasObject(table, g, q);
    var refs, fields, t := Refd(table, g, root), g[root].fields, NameOf(g[q].fields[0]);
    RootTokens(table, g, root);
    RootRefs(table, g, root);
    SameSeenAll(table, g, refs, Refs({0, root}, {}), fields, " ");
    ZeroIsNoNode(table, g);
    RowShowsImv(table, g, refs, {0, root}, fields, q);
    var r := Make(Reader(Tokens(Printed(table, g, root)), map["0" := 0], map[], 1), Ast(BASIC_BLOCK, []));
    AddressIsStrange(g[q].fields[0], r);
    if ReadElements(table, r, 1, false).Some? {
      ElementsSkip(table, r, 1, false, t);
      NothingSkipped(r, ReadElements(table, r, 1, false).value, t);
    }
  }

  lemma AddressIsStrange(v: nat, r: Reader)
    requires v != 0 && r.names == map["0" := 0] && ("_" + NameOf(v)) !in r.toks
    ensures Strange(r, NameOf(v))
  {
    assert NameOf(v)[0] == '0' && NameOf(v)[1] == 'x';
  }

  lemma NothingSkipped(r: Reader, r': Reader, t: string)
    requires Skips(r, r', t)
    ensures t in r.toks ==> r'.toks != []
  {
  }

  // ---------------------------------------------------------------- one that does, and one that does not

  /** A row of two nodes that were shown before. */
  lemma SeenRow(table: Table, g: Graph, refs: set<nat>, r: Refs, x: nat, y: nat, open: set<nat>)
    requires GraphOk(table, g) && 0 in r.seen && x in r.seen && y in r.seen && (x == 0 || x in g) && (y == 0 || y in g)
    ensures DetermineAll(table, g, r, [x, y]) == Refs(r.seen, r.again + {x, y})
    ensures ShowsAll(table, g, refs, r.seen, [x, y])
    ensures ClearAll(table, g, refs, r.seen, [x, y], open) <==> x !in open && y !in open
  {
    hide GraphOk, NameOf;
    assert [x, y][1..] == [y];
    assert r.again + {x} + {y} == r.again + {x, y};
    var r1 := Refs(r.seen, r.again + {x});
    assert Determine(table, g, r, x) == r1 && Print(table, g, refs, r.seen, x, true).seen == r.seen;
    OneRow(table, g, refs, r1, y, open);
  }

  lemma OneRow(table: Table, g: Graph, refs: set<nat>, r: Refs, x: nat, open: set<nat>)
    requires GraphOk(table, g) && 0 in r.seen && (x == 0 || x in g)
    ensures DetermineAll(table, g, r, [x]) == Determine(table, g, r, x)
    ensures ShowsAll(table, g, refs, r.seen, [x]) == Shows(table, g, refs, r.seen, x)
    ensures ClearAll(table, g, refs, r.seen, [x], open) == Clear(table, g, refs, r.seen, x, open)
  {
    hide GraphOk, Determine, Shows, Clear, Print;
  }

  /** A node that is come across for the first time. */
  lemma FirstTime(table: Table, g: Graph, refs: set<nat>, r: Refs, p: nat, open: set<nat>)
    requires GraphOk(table, g) && 0 in r.seen && p in g && p !in r.seen
    requires forall x | x in Children(g[p]) :: x == 0 || x in g
    ensures Determine(table, g, r, p) == DetermineAll(table, g, Refs(r.seen + {p}, r.again), Children(g[p]))
    ensures Shows(table, g, refs, r.seen, p) ==
      (Shown(refs, p, g[p]) && ShowsAll(table, g, refs, r.seen + {p}, Children(g[p])))
    ensures Clear(table, g, refs, r.seen, p, open) ==
      ClearAll(table, g, refs, r.seen + {p}, Children(g[p]), Opened(g, p, open))
  {
    hide DetermineAll, ShowsAll, ClearAll;
  }

  /** A block that holds itself: its name is needed before it is entered. */
  const OWN_NAME: Graph := map[1 := Ast(BASIC_BLOCK, [2]), 2 := Ast(BASIC_BLOCK, [2, 0])]

  /** The text of such a block is refused, though every node is shown as what it is. */
  lemma OwnNameIsRefused(table: Table)
    requires TableOk(table)
    ensures GraphOk(table, OWN_NAME) && ShowsAll(table, OWN_NAME, Refd(table, OWN_NAME, 1), {0, 1}, [2])
    ensures Read(table, Printed(table, OWN_NAME, 1)) == None
  {
    var g := OWN_NAME;
    assert GraphOk(table, g);
    hide GraphOk, TableOk, Determine, DetermineAll, Shows, ShowsAll, Clear, ClearAll, Read, Printed;
    var refs: set<nat>, r: Refs := {2, 0}, Refs({0, 1}, {});
    assert {0} + {1} == {0, 1} && {0, 1} + {2} == {0, 1, 2} && {1} + {2} == {1, 2} && {} + {2, 0} == refs;
    FirstTime(table, g, refs, Refs({0}, {}), 1, {});
    OneRow(table, g, refs, r, 2, {1});
    FirstTime(table, g, refs, r, 2, {1});
    SeenRow(table, g, refs, Refs({0, 1, 2}, {}), 2, 0, {1, 2});
    var f := ReadsIffClear(table, g, 1);
  }

  /** A block that leads back to itself, but only through a node around it. */
  function AroundName(k: nat): Graph {
    map[1 := Ast(BASIC_BLOCK, [2]), 2 := Ast(k, [3]), 3 := Ast(BASIC_BLOCK, [2, 2])]
  }

  lemma AroundNameComesBack(table: Table, k: nat)
    requires TableOk(table) && k < |table| && k != IMV && k != BASIC_BLOCK && table[k].fields == 1
    ensures GraphOk(table, AroundName(k)) && ComesBack(table, AroundName(k), 1)
  {
    var g := AroundName(k);
    assert GraphOk(table, g);
    hide GraphOk, TableOk, Determine, DetermineAll, Shows, ShowsAll, Clear, ClearAll, Read, Printed;
    var refs: set<nat>, r: Refs := {2}, Refs({0, 1}, {});
    assert {0} + {1} == {0, 1} && {0, 1} + {2} == {0, 1, 2} && {0, 1, 2} + {3} == {0, 1, 2, 3};
    assert {1} + {3} == {1, 3} && {} + {2, 2} == refs;
    FirstTime(table, g, refs, Refs({0}, {}), 1, {});
    OneRow(table, g, refs, r, 2, {1});
    FirstTime(table, g, refs, r, 2, {1});
    OneRow(table, g, refs, Refs({0, 1, 2}, {}), 3, {1});
    FirstTime(table, g, refs, Refs({0, 1, 2}, {}), 3, {1});
    SeenRow(table, g, refs, Refs({0, 1, 2, 3}, {}), 2, 2, {1, 3});
    assert Printable(table, g, 1);
    var f := PrintThenRead(table, g, 1);
  }
}
