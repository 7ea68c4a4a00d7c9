/**
 The console reader: characters to tokens, and tokens to AST nodes. Names are entered in a
 map when a node is declared, before its fields are read.
 */
module Reading {
  import opened Options
  import opened Printing
  import opened Tags
  import Vectors

  // ---------------------------------------------------------------- tokens

  predicate Ends(s: string) {
    s == "" || IsSpecial(s[0]) || IsSpace(s[0])
  }

  /** The number of leading characters of a word. */
  function WordLength(s: string): (n: nat)
    ensures n <= |s| && Ends(s[n..]) && forall i | 0 <= i < n :: !IsSpecial(s[i]) && !IsSpace(s[i])
  {
    if Ends(s) then 0 else 1 + WordLength(s[1..])
  }

  function SkipSpaces(s: string): (r: string)
    ensures |r| <= |s| && (r == "" || !IsSpace(r[0]))
  {
    if s != "" && IsSpace(s[0]) then SkipSpaces(s[1..]) else s
  }

  /** `get_token`: the next token, empty at the end, and the text after it. */
  function Token(s: string): (r: (string, string))
    ensures r.0 != "" ==> |r.1| < |s|
    ensures r.0 == "" ==> r.1 == ""
  {
    var t := SkipSpaces(s);
    if t == "" then ("", "")
    else if IsSpecial(t[0]) then ([t[0]], t[1..])
    else (t[..WordLength(t)], t[WordLength(t)..])
  }

  function Tokens(s: string): (r: seq<string>)
    ensures forall t | t in r :: t != ""
    decreases |s|
  {
    var (t, rest) := Token(s);
    if t == "" then [] else [t] + Tokens(rest)
  }

  // ---------------------------------------------------------------- reading

  /** What is left to read, the names so far, and the nodes made so far. */
  datatype Reader = Reader(toks: seq<string>, names: map<string, nat>, heap: Graph, next: nat)

  type Result = Option<(Reader, nat)>

  function FindTag(table: Table, name: string): (r: Option<nat>)
    ensures r.Some? ==> r.value < |table| && table[r.value].name == name
    ensures r.None? ==> forall i | 0 <= i < |table| :: table[i].name != name
  {
    FindTagFrom(table, name, 0)
  }

  function FindTagFrom(table: Table, name: string, i: nat): (r: Option<nat>)
    requires i <= |table|
    ensures r.Some? ==> i <= r.value < |table| && table[r.value].name == name
    ensures r.None? ==> forall k | i <= k < |table| :: table[k].name != name
    decreases |table| - i
  {
    if i == |table| then None
    else if table[i].name == name then Some(i)
    else FindTagFrom(table, name, i + 1)
  }

  function Make(r: Reader, c: Cell): Reader {
    r.(heap := r.heap[r.next := c], next := r.next + 1)
  }

  function SetField(r: Reader, at: nat, k: nat, v: nat): Reader {
    if at in r.heap && r.heap[at].Ast? && k < |r.heap[at].fields|
    then r.(heap := r.heap[at := r.heap[at].(fields := r.heap[at].fields[k := v])]) else r
  }

  function Push(r: Reader, at: nat, v: nat): Reader {
    if at in r.heap && r.heap[at].Ast?
    then r.(heap := r.heap[at := r.heap[at].(fields := r.heap[at].fields + [v])]) else r
  }

  /** A push through a copy of the vector's pointer, to the vector of a block in brackets, which
      was built with one element: when there is no more room, the element goes to a vector that
      nothing points to. */
  function PushLocal(r: Reader, at: nat, v: nat): Reader {
    if at in r.heap && r.heap[at].Ast? && |r.heap[at].fields| < Vectors.Reserved(1) then Push(r, at, v) else r
  }

  function Zeros(n: nat): seq<nat> {
    seq(n, i => 0)
  }

  /** The fields of a node that was just made: null pointers. A basic block in brackets starts
      with one null element. */
  function BlankFields(table: Table, tag: nat): seq<nat>
    requires tag < |table|
  {
    if tag == IMV || tag == BASIC_BLOCK then [0] else Zeros(table[tag].fields)
  }

  predicate IsNumber(w: string) {
    forall i | 0 <= i < |w| :: '0' <= w[i] <= '9'
  }

  function Decimal(w: string): nat
    requires IsNumber(w)
  {
    if w == "" then 0 else Decimal(w[..|w| - 1]) * 10 + (w[|w| - 1] as int - '0' as int)
  }

  function Bind(names: map<string, nat>, name: string, p: nat): map<string, nat> {
    if name == "" || name in names then names else names[name := p]
  }

  /** `read_single_AST` on a first token that was read already. None is the source's error. */
  function ReadOne(table: Table, r: Reader, first: string): (q: Result)
    ensures q.Some? ==> |q.value.0.toks| <= |r.toks|
    decreases |r.toks|, 1
  {
    if |first| > 0 && first[0] == '_' then
      var name := first[1..];
      if name != "" && name in r.names then None
      else if r.toks == [] then None
      else ReadNamed(table, r.(toks := r.toks[1..]), name, r.toks[0])
    else ReadNamed(table, r, "", first)
  }

  /** After the declared name, if any. */
  function ReadNamed(table: Table, r: Reader, name: string, first: string): (q: Result)
    ensures q.Some? ==> |q.value.0.toks| <= |r.toks|
    decreases |r.toks|, 0, 2
  {
    if first == "{" then
      var q := ReadBlock(table, r, true);
      if q.None? then None else Some((q.value.0.(names := Bind(q.value.0.names, name, q.value.1)), q.value.1))
    else if first != "[" then
      if first in r.names then Some((r, r.names[first])) else None
    else if r.toks == [] then None
    else
      var tag := FindTag(table, r.toks[0]);
      if tag.None? then None
      else
        var at := r.next;
        var made := Make(r.(toks := r.toks[1..]), Ast(tag.value, BlankFields(table, tag.value)));
        var q := ReadFields(table, made.(names := Bind(made.names, name, at)), at, tag.value, 0);
        if q.None? then None else Some((q.value, at))
  }

  /** The loop over a node's fields, up to the closing bracket. */
  function ReadFields(table: Table, r: Reader, at: nat, tag: nat, k: nat): (q: Option<Reader>)
    requires tag < |table|
    ensures q.Some? ==> |q.value.toks| <= |r.toks|
    decreases |r.toks|, 0, 0
  {
    if r.toks == [] then None
    else
      var token, r1 := r.toks[0], r.(toks := r.toks[1..]);
      if token == "]" then Some(r1)
      else if k >= MAX_FIELDS then None
      else if k < table[tag].fields || tag == BASIC_BLOCK then
        var q := if token == "{" then ReadBlock(table, r1, true) else ReadOne(table, r1, token);
        if q.None? then None
        else
          var r2 := if tag == BASIC_BLOCK then PushLocal(q.value.0, at, q.value.1)
            else SetField(q.value.0, at, k, q.value.1);
          ReadFields(table, r2, at, tag, k + 1)
      else if tag == IMV && k == 0 then
        if IsNumber(token) then
          if Decimal(token) >= 0x1_0000_0000_0000_0000 then None
          else ReadFields(table, SetField(Make(r1, Number(Decimal(token))), at, 0, r1.next), at, tag, 1)
        else if token in r1.names then ReadFields(table, SetField(r1, at, 0, r1.names[token]), at, tag, 1)
        else None
      else None
  }

  /** `create_single_basic_block`: elements up to the closing brace, or to the end. */
  function ReadBlock(table: Table, r: Reader, brace: bool): (q: Result)
    ensures q.Some? ==> |q.value.0.toks| <= |r.toks|
    decreases |r.toks|, 0, 1
  {
    var q := ReadElements(table, Make(r, Ast(BASIC_BLOCK, [])), r.next, brace);
    if q.None? then None else Some((q.value, r.next))
  }

  function ReadElements(table: Table, r: Reader, at: nat, brace: bool): (q: Option<Reader>)
    ensures q.Some? ==> |q.value.toks| <= |r.toks|
    decreases |r.toks|, 0, 0
  {
    if r.toks == [] then (if brace then None else Some(r))
    else
      var word, r1 := r.toks[0], r.(toks := r.toks[1..]);
      if word == (if brace then "}" else "") then Some(r1)
      else
        var q := ReadOne(table, r1, word);
        if q.None? then None else ReadElements(table, Push(q.value.0, at, q.value.1), at, brace)
  }

  /** `read`: the whole text is the elements of one basic block. */
  function Read(table: Table, text: string): Result {
    ReadBlock(table, Reader(Tokens(text), map["0" := 0], map[], 1), false)
  }

  // ---------------------------------------------------------------- what a block in brackets keeps

  /** The elements that are read into a block in brackets, from the k-th on. */
  function Elements(table: Table, r: Reader, at: nat, k: nat): (vs: seq<nat>)
    requires |table| > BASIC_BLOCK
    decreases |r.toks|
  {
    if r.toks == [] || r.toks[0] == "]" || k >= MAX_FIELDS then []
    else
      var r1 := r.(toks := r.toks[1..]);
      var q := if r.toks[0] == "{" then ReadBlock(table, r1, true) else ReadOne(table, r1, r.toks[0]);
      if q.None? then [] else [q.value.1] + Elements(table, PushLocal(q.value.0, at, q.value.1), at, k + 1)
  }

  /** Nodes that were there are as they were, but for one. */
  ghost predicate OldKept(r: Reader, r': Reader, except: Option<nat>) {
    && r.next <= r'.next
    && forall a | a in r.heap && a < r.next && Some(a) != except :: a in r'.heap && r'.heap[a] == r.heap[a]
  }

  lemma {:induction false} OneKeepsOld(table: Table, r: Reader, first: string)
    requires ReadOne(table, r, first).Some?
    ensures OldKept(r, ReadOne(table, r, first).value.0, None)
    decreases |r.toks|, 1
  {
    if |first| > 0 && first[0] == '_' {
      NamedKeepsOld(table, r.(toks := r.toks[1..]), first[1..], r.toks[0]);
    } else {
      NamedKeepsOld(table, r, "", first);
    }
  }

  lemma {:induction false} NamedKeepsOld(table: Table, r: Reader, name: string, first: string)
    requires ReadNamed(table, r, name, first).Some?
    ensures OldKept(r, ReadNamed(table, r, name, first).value.0, None)
    decreases |r.toks|, 0, 2
  {
    hide ReadFields, ReadBlock, FindTag;
    if first == "{" {
      BlockKeepsOld(table, r, true);
    } else if first == "[" {
      var tag := FindTag(table, r.toks[0]).value;
      var made := Make(r.(toks := r.toks[1..]), Ast(tag, BlankFields(table, tag)));
      FieldsKeepOld(table, made.(names := Bind(made.names, name, r.next)), r.next, tag, 0);
    }
  }

  lemma OldKeptTrans(r0: Reader, r1: Reader, r2: Reader, r3: Reader, at: nat)
    requires OldKept(r0, r1, None) && OldKept(r1, r2, Some(at)) && OldKept(r2, r3, Some(at))
    ensures OldKept(r0, r3, Some(at))
  {
  }

  lemma OldKeptRefl(r: Reader, r1: Reader, at: nat)
    requires r1 == r.(toks := r1.toks)
    ensures OldKept(r, r1, Some(at))
  {
  }

  lemma OldKeptFrom(r: Reader, r1: Reader, r2: Reader)
    requires r1 == r.(toks := r1.toks) && OldKept(r1, r2, None)
    ensures OldKept(r, r2, None)
  {
  }

  lemma OldKeptMake(r: Reader, r1: Reader, c: Cell)
    requires r1 == r.(toks := r1.toks)
    ensures OldKept(r, r1, None) && OldKept(r, Make(r1, c), None)
  {
  }

  lemma StoresKeepOld(r: Reader, at: nat, k: nat, v: nat)
    ensures OldKept(r, SetField(r, at, k, v), Some(at)) && SetField(r, at, k, v).toks == r.toks
    ensures OldKept(r, PushLocal(r, at, v), Some(at)) && PushLocal(r, at, v).toks == r.toks
  {
  }

  lemma {:induction false} FieldsKeepOld(table: Table, r: Reader, at: nat, tag: nat, k: nat)
    requires tag < |table| && ReadFields(table, r, at, tag, k).Some?
    ensures OldKept(r, ReadFields(table, r, at, tag, k).value, Some(at))
    decreases |r.toks|, 0, 0
  {
    hide ReadOne, ReadBlock, IsNumber, Decimal, SetField, PushLocal, OldKept;
    var token, r1 := r.toks[0], r.(toks := r.toks[1..]);
    OldKeptMake(r, r1, Number(0));
    var r' := ReadFields(table, r, at, tag, k).value;
    if token == "]" {
      OldKeptRefl(r, r1, at);
    } else if k < table[tag].fields || tag == BASIC_BLOCK {
      var q := if token == "{" then ReadBlock(table, r1, true) else ReadOne(table, r1, token);
      if token == "{" { BlockKeepsOld(table, r1, true); } else { OneKeepsOld(table, r1, token); }
      var r2 := if tag == BASIC_BLOCK then PushLocal(q.value.0, at, q.value.1)
        else SetField(q.value.0, at, k, q.value.1);
      StoresKeepOld(q.value.0, at, k, q.value.1);
      FieldsKeepOld(table, r2, at, tag, k + 1);
      OldKeptFrom(r, r1, q.value.0);
      OldKeptTrans(r, q.value.0, r2, r', at);
    } else if IsNumber(token) {
      var made := Make(r1, Number(Decimal(token)));
      OldKeptMake(r, r1, Number(Decimal(token)));
      StoresKeepOld(made, at, 0, r1.next);
      FieldsKeepOld(table, SetField(made, at, 0, r1.next), at, tag, 1);
      OldKeptTrans(r, made, SetField(made, at, 0, r1.next), r', at);
    } else {
      StoresKeepOld(r1, at, 0, r1.names[token]);
      FieldsKeepOld(table, SetField(r1, at, 0, r1.names[token]), at, tag, 1);
      OldKeptTrans(r, r1, SetField(r1, at, 0, r1.names[token]), r', at);
    }
  }

  lemma {:induction false} BlockKeepsOld(table: Table, r: Reader, brace: bool)
    requires ReadBlock(table, r, brace).Some?
    ensures OldKept(r, ReadBlock(table, r, brace).value.0, None)
    decreases |r.toks|, 0, 1
  {
    ElementsKeepOld(table, Make(r, Ast(BASIC_BLOCK, [])), r.next, brace);
  }

  lemma {:induction false} ElementsKeepOld(table: Table, r: Reader, at: nat, brace: bool)
    requires ReadElements(table, r, at, brace).Some?
    ensures OldKept(r, ReadElements(table, r, at, brace).value, Some(at))
    decreases |r.toks|, 0, 0
  {
    hide ReadOne;
    if r.toks != [] && r.toks[0] != (if brace then "}" else "") {
      var r1 := r.(toks := r.toks[1..]);
      OneKeepsOld(table, r1, r.toks[0]);
      var q := ReadOne(table, r1, r.toks[0]).value;
      ElementsKeepOld(table, Push(q.0, at, q.1), at, brace);
    }
  }

  /** What a vector with room for four keeps of its elements. */
  function Kept(elements: seq<nat>): seq<nat> {
    if |elements| <= Vectors.Reserved(1) then elements else elements[..Vectors.Reserved(1)]
  }

  /** What does not fit makes no difference. */
  lemma KeptMore(fields: seq<nat>, v: nat, rest: seq<nat>)
    requires |fields| <= Vectors.Reserved(1)
    ensures Kept(fields) == fields && Kept(Kept(fields + [v]) + rest) == Kept((fields + [v]) + rest)
  {
  }

  lemma PushedLocal(r: Reader, at: nat, v: nat)
    requires at in r.heap && r.heap[at].Ast? && |r.heap[at].fields| <= Vectors.Reserved(1)
    ensures var r' := PushLocal(r, at, v);
      r'.next == r.next && r'.toks == r.toks && at in r'.heap
        && r'.heap[at] == Ast(r.heap[at].tag, Kept(r.heap[at].fields + [v]))
    ensures |Kept(r.heap[at].fields + [v])| <= Vectors.Reserved(1)
  {
  }

  lemma {:induction false} BracketsFrom(table: Table, r: Reader, at: nat, k: nat)
    requires |table| > BASIC_BLOCK && table[BASIC_BLOCK].fields == 0
    requires at in r.heap && at < r.next && r.heap[at].Ast? && |r.heap[at].fields| <= Vectors.Reserved(1)
    requires ReadFields(table, r, at, BASIC_BLOCK, k).Some?
    ensures var heap := ReadFields(table, r, at, BASIC_BLOCK, k).value.heap;
      at in heap && heap[at] == Ast(r.heap[at].tag, Kept(r.heap[at].fields + Elements(table, r, at, k)))
    decreases |r.toks|
  {
    hide ReadOne, ReadBlock, PushLocal, Kept;
    var fields := r.heap[at].fields;
    if r.toks[0] == "]" {
      assert fields + [] == fields;
      KeptMore(fields, 0, []);
    } else {
      var r1 := r.(toks := r.toks[1..]);
      var q := if r.toks[0] == "{" then ReadBlock(table, r1, true) else ReadOne(table, r1, r.toks[0]);
      if r.toks[0] == "{" { BlockKeepsOld(table, r1, true); } else { OneKeepsOld(table, r1, r.toks[0]); }
      var v, r2 := q.value.1, PushLocal(q.value.0, at, q.value.1);
      var rest := Elements(table, r2, at, k + 1);
      PushedLocal(q.value.0, at, v);
      BracketsFrom(table, r2, at, k + 1);
      assert fields + ([v] + rest) == (fields + [v]) + rest;
      KeptMore(fields, v, rest);
    }
  }

  /** A basic block in brackets gets a null element, and then the first three of the elements
      that were read: all of them if and only if there are no more. */
  lemma BracketsLose(table: Table, r: Reader, at: nat)
    requires |table| > BASIC_BLOCK && table[BASIC_BLOCK].fields == 0 && at < r.next
    requires at in r.heap && r.heap[at] == Ast(BASIC_BLOCK, BlankFields(table, BASIC_BLOCK))
    requires ReadFields(table, r, at, BASIC_BLOCK, 0).Some?
    ensures var heap := ReadFields(table, r, at, BASIC_BLOCK, 0).value.heap; var vs := Elements(table, r, at, 0);
      && at in heap && heap[at] == Ast(BASIC_BLOCK, [0] + (if |vs| <= 3 then vs else vs[..3]))
      && (heap[at].fields == [0] + vs <==> |vs| <= 3)
  {
    BracketsFrom(table, r, at, 0);
    hide ReadFields, Elements;
  }

  // ---------------------------------------------------------------- the reader

  /** `source_reader`: consumes its text, and fills in nodes, vectors and names as it goes.
      A method gives None where the source stops with an error. */
  class SourceReader {
    const table: Table
    var input: string
    var names: map<string, nat>
    var heap: Graph
    var next: nat

    ghost function State(): Reader
      reads this
    {
      Reader(Tokens(input), names, heap, next)
    }

    constructor (table: Table, text: string)
      ensures this.table == table && State() == Reader(Tokens(text), map["0" := 0], map[], 1)
    {
      this.table, input, names, heap, next := table, text, map["0" := 0], map[], 1;
    }

    /** The next token; empty at the end of the text. */
    method GetToken() returns (word: string)
      modifies this`input
      ensures if old(State()).toks == [] then word == "" && State() == old(State())
              else word == old(State()).toks[0] && State() == old(State()).(toks := old(State()).toks[1..])
    {
      ghost var text := input;
      while input != "" && IsSpace(input[0])
        invariant SkipSpaces(input) == SkipSpaces(text)
        decreases |input|
      {
        input := input[1..];
      }
      if input == "" { return ""; }
      if IsSpecial(input[0]) {
        word := [input[0]];
        input := input[1..];
        return;
      }
      ghost var rest := input;
      word := "";
      while input != "" && !IsSpecial(input[0]) && !IsSpace(input[0])
        invariant |word| <= |rest| && word == rest[..|word|] && input == rest[|word|..]
        invariant |word| + WordLength(input) == WordLength(rest)
        decreases |input|
      {
        word := word + [input[0]];
        input := input[1..];
      }
    }

    method NewNode(c: Cell) returns (at: nat)
      modifies this`heap, this`next
      ensures at == old(next) && State() == Make(old(State()), c)
    {
      at := next;
      heap := heap[at := c];
      next := next + 1;
    }

    /** `read_single_AST`, continuing with a token that was read already. */
    method ReadSingleAst(continued: string) returns (q: Option<nat>)
      modifies this`input, this`names, this`heap, this`next
      ensures var spec := ReadOne(table, old(State()), continued);
        if q.None? then spec.None? else spec == Some((State(), q.value))
      decreases |Tokens(input)|, 1
    {
      hide Tokens, ReadNamed;
      ghost var toks := Tokens(input);
      var first, thisName := continued, "";
      if |first| > 0 && first[0] == '_' {
        thisName := first[1..];
        if thisName != "" && thisName in names { return None; }
        first := GetToken();
        assert toks != [] ==> toks[0] in toks;
        if first == "" { return None; }
      }
      q := ReadNamedAst(thisName, first);
    }

    method ReadNamedAst(name: string, first: string) returns (q: Option<nat>)
      modifies this`input, this`names, this`heap, this`next
      ensures var spec := ReadNamed(table, old(State()), name, first);
        if q.None? then spec.None? else spec == Some((State(), q.value))
      decreases |Tokens(input)|, 0, 2
    {
      hide Tokens, ReadFields, ReadBlock, FindTag;
      if first == "{" {
        q := CreateSingleBasicBlock(true);
        if q.Some? { names := Bind(names, name, q.value); }
        return;
      }
      if first != "[" { return if first in names then Some(names[first]) else None; }
      ghost var toks := Tokens(input);
      var tagName := GetToken();
      assert toks != [] ==> toks[0] in toks;
      if tagName == "" { return None; }
      var tag := FindTag(table, tagName);
      if tag.None? { return None; }
      var at := NewNode(Ast(tag.value, BlankFields(table, tag.value)));
      names := Bind(names, name, at);
      var ok := ReadAllFields(at, tag.value);
      q := if ok then Some(at) else None;
    }

    /** The loop over a node's fields. */
    method ReadAllFields(at: nat, tag: nat) returns (ok: bool)
      requires tag < |table|
      modifies this`input, this`names, this`heap, this`next
      ensures var spec := ReadFields(table, old(State()), at, tag, 0);
        if !ok then spec.None? else spec == Some(State())
      decreases |Tokens(input)|, 0, 0
    {
      hide Tokens, ReadOne, ReadBlock, SetField, PushLocal, Push, Make, IsNumber, Decimal;
      ghost var spec := ReadFields(table, State(), at, tag, 0);
      ghost var n := |Tokens(input)|;
      var k := 0;
      while true
        invariant ReadFields(table, State(), at, tag, k) == spec && |Tokens(input)| <= n
        decreases |Tokens(input)|
      {
        ghost var before := State();
        var token := GetToken();
        assert before.toks != [] ==> before.toks[0] in before.toks;
        if token == "" { return false; }
        if token == "]" { return true; }
        if k >= MAX_FIELDS { return false; }
        if k < table[tag].fields || tag == BASIC_BLOCK {
          var q;
          if token == "{" { q := CreateSingleBasicBlock(true); } else { q := ReadSingleAst(token); }
          if q.None? { return false; }
          if tag == BASIC_BLOCK { PushLocalElement(at, q.value); } else { WriteField(at, k, q.value); }
        } else if tag == IMV && k == 0 {
          var q := ReadImv(token);
          if q.None? { return false; }
          WriteField(at, 0, q.value);
        } else {
          return false;
        }
        k := k + 1;
      }
    }

    /** The object of an imv: a number, or something that was named before. */
    method ReadImv(token: string) returns (q: Option<nat>)
      modifies this`heap, this`next
      ensures IsNumber(token) && Decimal(token) < 0x1_0000_0000_0000_0000 ==>
        q == Some(old(next)) && State() == Make(old(State()), Number(Decimal(token)))
      ensures !IsNumber(token) && token in names ==> q == Some(names[token]) && State() == old(State())
      ensures (if IsNumber(token) then Decimal(token) >= 0x1_0000_0000_0000_0000 else token !in names) ==> q.None?
    {
      if IsNumber(token) {
        if Decimal(token) >= 0x1_0000_0000_0000_0000 { return None; }
        var at := NewNode(Number(Decimal(token)));
        return Some(at);
      }
      return if token in names then Some(names[token]) else None;
    }

    method WriteField(at: nat, k: nat, v: nat)
      modifies this`heap
      ensures State() == SetField(old(State()), at, k, v)
    {
      if at in heap && heap[at].Ast? && k < |heap[at].fields| {
        heap := heap[at := heap[at].(fields := heap[at].fields[k := v])];
      }
    }

    /** `pushback_int` on a block's vector. */
    method PushElement(at: nat, v: nat)
      modifies this`heap
      ensures State() == Push(old(State()), at, v)
    {
      if at in heap && heap[at].Ast? {
        heap := heap[at := heap[at].(fields := heap[at].fields + [v])];
      }
    }

    /** `pushback_int` on a local copy of the pointer: the node keeps the old vector. */
    method PushLocalElement(at: nat, v: nat)
      modifies this`heap
      ensures State() == PushLocal(old(State()), at, v)
    {
      if at in heap && heap[at].Ast? && |heap[at].fields| < Vectors.Reserved(1) { PushElement(at, v); }
    }

    /** `create_single_basic_block`. */
    method CreateSingleBasicBlock(brace: bool) returns (q: Option<nat>)
      modifies this`input, this`names, this`heap, this`next
      ensures var spec := ReadBlock(table, old(State()), brace);
        if q.None? then spec.None? else spec == Some((State(), q.value))
      decreases |Tokens(input)|, 0, 1
    {
      hide Tokens, ReadOne;
      ghost var n := |Tokens(input)|;
      var at := NewNode(Ast(BASIC_BLOCK, []));
      ghost var spec := ReadElements(table, State(), at, brace);
      while true
        invariant ReadElements(table, State(), at, brace) == spec && |Tokens(input)| <= n
        decreases |Tokens(input)|
      {
        ghost var before := State();
        var word := GetToken();
        assert before.toks != [] ==> before.toks[0] in before.toks;
        if word == "" { return if brace then None else Some(at); }
        if brace && word == "}" { return Some(at); }
        var q := ReadSingleAst(word);
        if q.None? { return None; }
        PushElement(at, q.value);
      }
    }

    /** `read`. */
    method ReadText() returns (q: Option<nat>)
      modifies this`input, this`names, this`heap, this`next
      ensures var spec := ReadBlock(table, old(State()), false);
        if q.None? then spec.None? else spec == Some((State(), q.value))
    {
      q := CreateSingleBasicBlock(false);
    }
  }
}
