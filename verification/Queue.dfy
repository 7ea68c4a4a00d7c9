/**
 The shared-memory queue with many senders and one reader, as interleaved atomic steps. A
 sender reserves room by compare-and-exchange, writes its words, and commits in reservation
 order; the reader polls.

 Two models share the steps. `AsWritten` has the wrap tests of the source, which disagree
 with each other; `Corrected` uses `next_offset` everywhere.
 */
module Queue {
  import opened Options

  /** Size of the header: the three positions. */
  const HEADER: nat := 3

  datatype Mode = AsWritten | Corrected

  /** `mmap_size` is symbolic. */
  datatype Config = Config(mode: Mode, size: nat) {
    function Capacity(): int { size - HEADER }
  }

  ghost predicate ConfigOk(c: Config) {
    c.size > HEADER + 20
  }

  /** A sender between two of its atomic steps. `index` and the message list of the state are
      only there to say which message a reservation is for. */
  datatype Sender =
    | Idle
    | Loaded(values: seq<nat>, start: nat)
    | Writing(values: seq<nat>, start: nat, cursor: nat, count: nat, index: nat)

  datatype State = State(
    memory: seq<nat>, reserve: nat, done: nat, user: nat,
    senders: seq<Sender>, messages: seq<seq<nat>>, committed: nat, received: seq<nat>)

  datatype Event =
    | Begin(i: nat, values: seq<nat>)
    | Reserve(i: nat)
    | ReserveFails(i: nat)
    | Write(i: nat)
    | Commit(i: nat)
    | CommitFails(i: nat)
    | Read(beyond: nat)

  // ---------------------------------------------------------------- positions

  function NextOffset(c: Config, offset: nat): nat {
    if offset + 1 == c.size then HEADER else offset + 1
  }

  /** Where a reservation ends, in `allocate_memory`. */
  function ReserveEnd(c: Config, start: nat, n: nat): int {
    if start + n >= c.size then start + n - c.Capacity() else start + n
  }

  /** Where it ends, in `commit_memory`. */
  function CommitEnd(c: Config, start: nat, n: nat): int {
    match c.mode
    case AsWritten => if start + n > c.size then start + n - c.Capacity() else start + n
    case Corrected => ReserveEnd(c, start, n)
  }

  /** The reader's next position, in `get_next_value`. */
  function ReadNext(c: Config, offset: nat): nat {
    match c.mode
    case AsWritten => if offset > c.size then HEADER else offset + 1
    case Corrected => NextOffset(c, offset)
  }

  // ---------------------------------------------------------------- steps

  function Initial(memory: seq<nat>, senders: nat): State {
    State(memory, HEADER, HEADER, HEADER, seq(senders, i => Idle), [], 0, [])
  }

  function Set(s: State, i: nat, x: Sender): State
    requires i < |s.senders|
  {
    s.(senders := s.senders[i := x])
  }

  /** One atomic step; None when it is not enabled. A reader that stands past the end of the
      memory gets whatever word is there. */
  function Next(c: Config, s: State, e: Event): Option<State> {
    if e.Read? then
      if s.user == s.done then None
      else
        var word := if s.user < |s.memory| then s.memory[s.user] else e.beyond;
        Some(s.(user := ReadNext(c, s.user), received := s.received + [word]))
    else if e.i >= |s.senders| then None
    else
      var x := s.senders[e.i];
      match e
      case Begin(i, values) =>
        if x.Idle? && 0 < |values| < c.size - HEADER - 20 then Some(Set(s, i, Loaded(values, s.reserve))) else None
      case Reserve(i) =>
        if x.Loaded? && x.start == s.reserve && ReserveEnd(c, x.start, |x.values|) >= 0 then
          Some(Set(s, i, Writing(x.values, x.start, x.start, 0, |s.messages|)).(
                 reserve := ReserveEnd(c, x.start, |x.values|), messages := s.messages + [x.values]))
        else None
      case ReserveFails(i) =>
        if x.Loaded? then Some(Set(s, i, Loaded(x.values, s.reserve))) else None
      case Write(i) =>
        if x.Writing? && x.count < |x.values| && x.cursor < |s.memory| then
          var more := x.count + 1;
          Some(Set(s, i, x.(cursor := if more < |x.values| then NextOffset(c, x.cursor) else x.cursor, count := more)).(
                 memory := s.memory[x.cursor := x.values[x.count]]))
        else None
      case Commit(i) =>
        if x.Writing? && x.count == |x.values| && s.done == x.start && CommitEnd(c, x.start, |x.values|) >= 0 then
          Some(Set(s, i, Idle).(done := CommitEnd(c, x.start, |x.values|), committed := s.committed + 1))
        else None
      case CommitFails(i) =>
        if x.Writing? && x.count == |x.values| then Some(s) else None
  }

  /** What a run may do: what is unread or in flight stays below the capacity. */
  ghost predicate Allowed(c: Config, s: State, e: Event) {
    e.Reserve? && e.i < |s.senders| && s.senders[e.i].Loaded? ==>
      Total(s.messages) + |s.senders[e.i].values| - |s.received| < c.Capacity()
  }

  /** Any steps one after the other. */
  ghost predicate Follows(c: Config, run: seq<State>, events: seq<Event>) {
    && |run| == |events| + 1
    && (forall k | 0 <= k < |events| :: Next(c, run[k], events[k]) == Some(run[k + 1]))
  }

  ghost predicate IsRun(c: Config, run: seq<State>, events: seq<Event>) {
    && Follows(c, run, events)
    && (forall k | 0 <= k < |events| :: Allowed(c, run[k], events[k]))
  }

  /** As written, the reader has not yet gone past the end of the memory. */
  ghost predicate Inside(c: Config, s: State) {
    c.mode.AsWritten? ==> |s.received| <= c.Capacity()
  }

  // ---------------------------------------------------------------- words by virtual position

  function Total(messages: seq<seq<nat>>): nat {
    if messages == [] then 0 else Total(messages[..|messages| - 1]) + |messages[|messages| - 1]|
  }

  /** All words, in reservation order. */
  function Words(messages: seq<seq<nat>>): (r: seq<nat>)
    ensures |r| == Total(messages)
  {
    if messages == [] then [] else Words(messages[..|messages| - 1]) + messages[|messages| - 1]
  }

  /** Where the word of a virtual position is kept. */
  function Place(c: Config, v: nat): (p: nat)
    requires ConfigOk(c)
    ensures HEADER <= p < c.size
  {
    HEADER + v % c.Capacity()
  }

  /** What the done and the user position are for a virtual position: as written, they are at the
      end of the memory when the writers are at its start again. */
  function Mark(c: Config, v: nat): nat
    requires ConfigOk(c)
  {
    if c.mode.AsWritten? && v == c.Capacity() then c.size else Place(c, v)
  }

  /** The virtual position where a message starts. */
  function Start(messages: seq<seq<nat>>, index: nat): nat
    requires index <= |messages|
  {
    Total(messages[..index])
  }

  // ---------------------------------------------------------------- the invariant

  ghost predicate SenderOk(c: Config, s: State, x: Sender)
    requires ConfigOk(c) && |s.memory| == c.size
  {
    match x
    case Idle => true
    case Loaded(values, start) => 0 < |values| < c.size - HEADER - 20
    case Writing(values, start, cursor, count, index) =>
      && s.committed <= index < |s.messages| && s.messages[index] == values
      && start == Place(c, Start(s.messages, index)) && count <= |values|
      && (count < |values| ==> cursor == Place(c, Start(s.messages, index) + count))
      && forall j | 0 <= j < count :: s.memory[Place(c, Start(s.messages, index) + j)] == values[j]
  }

  ghost predicate Owners(s: State) {
    && (forall i, k |
          0 <= i < |s.senders| && 0 <= k < |s.senders| && i != k && s.senders[i].Writing? && s.senders[k].Writing? ::
          s.senders[i].index != s.senders[k].index)
    && (forall index | s.committed <= index < |s.messages| :: Owned(s, index))
  }

  ghost predicate Owned(s: State, index: nat) {
    exists i :: 0 <= i < |s.senders| && s.senders[i].Writing? && s.senders[i].index == index
  }

  ghost predicate Positions(c: Config, s: State)
    requires ConfigOk(c)
  {
    && s.committed <= |s.messages|
    && |s.received| <= Start(s.messages, s.committed) && Total(s.messages) < |s.received| + c.Capacity()
    && Inside(c, s)
    && s.reserve == Place(c, Total(s.messages))
    && s.done == Mark(c, Start(s.messages, s.committed))
    && s.user == Mark(c, |s.received|)
  }

  /** As written, the committed messages end exactly at the end of the memory. */
  ghost predicate Stuck(c: Config, s: State) {
    s.committed <= |s.messages| && c.mode.AsWritten? && Start(s.messages, s.committed) == c.Capacity()
  }

  ghost predicate Inv(c: Config, s: State) {
    && ConfigOk(c) && |s.memory| == c.size
    && (forall m | m in s.messages :: 0 < |m| < c.Capacity())
    && Positions(c, s)
    && (forall i | 0 <= i < |s.senders| :: SenderOk(c, s, s.senders[i]))
    && Owners(s)
    && Delivered(c, s)
  }

  /** What was read, and what is there to be read, are the words in reservation order. */
  ghost predicate Delivered(c: Config, s: State)
    requires ConfigOk(c) && |s.memory| == c.size
  {
    && |s.received| <= Total(s.messages) && s.received == Words(s.messages)[..|s.received|]
    && (s.committed <= |s.messages| ==>
          forall v: nat | |s.received| <= v < Start(s.messages, s.committed) && v < Total(s.messages) ::
            s.memory[Place(c, v)] == Words(s.messages)[v])
  }

  // ---------------------------------------------------------------- arithmetic of positions

  lemma PlaceNext(c: Config, v: nat)
    requires ConfigOk(c)
    ensures Place(c, v + 1) == NextOffset(c, Place(c, v)) && HEADER <= Place(c, v) < c.size
  {
    ModAdd(v, 1, c.Capacity());
  }

  lemma ModAdd(v: nat, n: nat, m: nat)
    requires n < m
    ensures (v + n) % m == if v % m + n < m then v % m + n else v % m + n - m
  {
    var q, r := v / m, v % m;
    assert v == q * m + r;
    if r + n < m { ModIs(v + n, q, r + n, m); } else {
      assert v + n == (q + 1) * m + (r + n - m);
      ModIs(v + n, q + 1, r + n - m, m);
    }
  }

  lemma ModIs(x: nat, q: nat, r: nat, m: nat)
    requires r < m && x == q * m + r
    ensures x % m == r
  {
    var d := x / m - q;
    assert x == (x / m) * m + x % m;
    assert d * m == (x / m) * m - q * m;
    assert d * m == r - x % m;
    Multiple(d, m);
  }

  lemma Multiple(d: int, m: nat)
    ensures d > 0 ==> d * m >= m
    ensures d < 0 ==> d * m <= -(m as int)
  {
  }

  lemma PlaceAdd(c: Config, v: nat, n: nat)
    requires ConfigOk(c) && n < c.Capacity()
    ensures Place(c, v + n) == ReserveEnd(c, Place(c, v), n)
  {
    ModAdd(v, n, c.Capacity());
  }

  /** Positions less than the capacity apart are kept in different places. */
  lemma PlaceInjective(c: Config, v: nat, w: nat)
    requires ConfigOk(c) && v < w < v + c.Capacity()
    ensures Place(c, v) != Place(c, w)
  {
    ModAdd(v, w - v, c.Capacity());
  }

  /** Going through the places one by one, as the writer does, comes to where the reservation
      ends. */
  function Walk(c: Config, offset: nat, n: nat): nat {
    if n == 0 then offset else NextOffset(c, Walk(c, offset, n - 1))
  }

  lemma {:induction false} WalkIsReserveEnd(c: Config, start: nat, n: nat)
    requires ConfigOk(c) && HEADER <= start < c.size && n < c.Capacity()
    ensures Walk(c, start, n) == ReserveEnd(c, start, n)
  {
    if n > 0 { WalkIsReserveEnd(c, start, n - 1); }
  }

  // ---------------------------------------------------------------- words of messages

  lemma StartNext(messages: seq<seq<nat>>, i: nat)
    requires i < |messages|
    ensures Start(messages, i + 1) == Start(messages, i) + |messages[i]|
  {
    assert messages[..i + 1][..i] == messages[..i];
  }

  lemma {:induction false} StartsAscend(messages: seq<seq<nat>>, i: nat, j: nat)
    requires i <= j <= |messages|
    ensures Start(messages, i) <= Start(messages, j)
    ensures i < j ==> Start(messages, i) + |messages[i]| <= Start(messages, j)
    decreases j
  {
    if i < j {
      StartNext(messages, j - 1);
      if i < j - 1 { StartsAscend(messages, i, j - 1); }
    }
  }

  lemma StartEnd(messages: seq<seq<nat>>)
    ensures Start(messages, |messages|) == Total(messages)
  {
    assert messages[..|messages|] == messages;
  }

  lemma Appended(messages: seq<seq<nat>>, m: seq<nat>)
    ensures Total(messages + [m]) == Total(messages) + |m|
    ensures Words(messages + [m]) == Words(messages) + m
    ensures forall i: nat | i <= |messages| :: Start(messages + [m], i) == Start(messages, i)
  {
    assert (messages + [m])[..|messages|] == messages;
    forall i: nat | i <= |messages| ensures Start(messages + [m], i) == Start(messages, i) {
      assert (messages + [m])[..i] == messages[..i];
    }
  }

  /** The words of a message are at its virtual positions. */
  lemma {:induction false} WordAt(messages: seq<seq<nat>>, i: nat, j: nat)
    requires i < |messages| && j < |messages[i]|
    ensures Start(messages, i) + j < Total(messages) && Words(messages)[Start(messages, i) + j] == messages[i][j]
    decreases |messages|
  {
    var n := |messages| - 1;
    var less := messages[..n];
    if i < n {
      WordAt(less, i, j);
      assert less[..i] == messages[..i];
    }
  }

  // ---------------------------------------------------------------- every step keeps the invariant

  /** A message's owner is still there when no other sender than i changed. */
  lemma OwnersKept(s: State, s': State, i: nat)
    requires Owners(s) && s.committed <= s'.committed <= |s.messages| && s.messages <= s'.messages
    requires i < |s.senders| == |s'.senders| && forall k | 0 <= k < |s.senders| && k != i ::
      s'.senders[k] == s.senders[k]
    ensures forall index |
        s'.committed <= index < |s.messages| && !(s.senders[i].Writing? && s.senders[i].index == index) ::
        Owned(s', index)
  {
    forall index | s'.committed <= index < |s.messages| && !(s.senders[i].Writing? && s.senders[i].index == index)
      ensures Owned(s', index)
    {
      assert Owned(s, index);
      var k :| 0 <= k < |s.senders| && s.senders[k].Writing? && s.senders[k].index == index;
      assert s'.senders[k] == s.senders[k];
    }
  }

  /** What a sender's state says depends on the memory, the messages and what is committed. */
  lemma SenderKept(c: Config, s: State, s': State, x: Sender)
    requires ConfigOk(c) && |s.memory| == c.size && SenderOk(c, s, x)
    requires s'.memory == s.memory && s.messages <= s'.messages && s.committed <= s'.committed
    requires x.Writing? ==> s'.committed <= x.index
    ensures SenderOk(c, s', x)
  {
    hide Place;
    if x.Writing? { assert s'.messages[..x.index] == s.messages[..x.index]; }
  }

  /** A sender that holds no reservation changes to one that holds none. */
  lemma InvPlain(c: Config, s: State, i: nat, x: Sender)
    requires Inv(c, s) && i < |s.senders| && !s.senders[i].Writing? && !x.Writing? && SenderOk(c, s, x)
    ensures Inv(c, Set(s, i, x))
  {
    hide Place, Words, Total, Start;
    var s' := Set(s, i, x);
    forall k | 0 <= k < |s'.senders| ensures SenderOk(c, s', s'.senders[k]) {
      SenderKept(c, s, s', if k == i then x else s.senders[k]);
    }
    OwnersKept(s, s', i);
  }

  /** The numbers after a reservation. */
  lemma ReservePositions(c: Config, s: State, i: nat, s': State)
    requires Inv(c, s) && Allowed(c, s, Reserve(i)) && Next(c, s, Reserve(i)) == Some(s')
    ensures Positions(c, s') && Delivered(c, s')
  {
    hide Place, ReserveEnd, SenderOk, Owners, Words, Total, Start, Mark, Delivered;
    var x := s.senders[i];
    assert s'.messages == s.messages + [x.values] && s'.reserve == ReserveEnd(c, x.start, |x.values|);
    Appended(s.messages, x.values);
    SameStart(s.messages, x.values, s.committed);
    LoadedSmall(c, s, i);
    PlaceAdd(c, Total(s.messages), |x.values|);
    assert Positions(c, s');
    ReserveDelivered(c, s, i, s');
  }

  lemma ReserveDelivered(c: Config, s: State, i: nat, s': State)
    requires Inv(c, s) && Next(c, s, Reserve(i)) == Some(s')
    ensures Delivered(c, s')
  {
    hide Place, ReserveEnd, SenderOk, Owners, Words, Total, Start, Mark, Allowed;
    var x := s.senders[i];
    Appended(s.messages, x.values);
    SameStart(s.messages, x.values, s.committed);
    StartEnd(s.messages);
    StartsAscend(s.messages, s.committed, |s.messages|);
  }

  lemma SameStart(messages: seq<seq<nat>>, m: seq<nat>, index: nat)
    requires index <= |messages|
    ensures Start(messages + [m], index) == Start(messages, index)
  {
    assert (messages + [m])[..index] == messages[..index];
  }

  lemma LoadedSmall(c: Config, s: State, i: nat)
    requires Inv(c, s) && i < |s.senders| && s.senders[i].Loaded?
    ensures 0 < |s.senders[i].values| < c.Capacity()
  {
    assert SenderOk(c, s, s.senders[i]);
  }

  lemma IndexBelow(c: Config, s: State, k: nat)
    requires Inv(c, s) && k < |s.senders| && s.senders[k].Writing?
    ensures s.committed <= s.senders[k].index < |s.messages|
  {
    assert SenderOk(c, s, s.senders[k]);
  }

  lemma InvReserve(c: Config, s: State, i: nat, s': State)
    requires Inv(c, s) && Allowed(c, s, Reserve(i)) && Next(c, s, Reserve(i)) == Some(s')
    ensures Inv(c, s')
  {
    hide Place, Words, Total, ReserveEnd, Allowed, Delivered, Start;
    ReservePositions(c, s, i, s');
    var x, index := s.senders[i], |s.messages|;
    LoadedSmall(c, s, i);
    forall k | 0 <= k < |s'.senders| ensures SenderOk(c, s', s'.senders[k]) {
      if k != i {
        if s.senders[k].Writing? { IndexBelow(c, s, k); }
        SenderKept(c, s, s', s.senders[k]);
      } else {
        ReservedOk(c, s, i, s');
      }
    }
    OwnersKept(s, s', i);
    assert Owned(s', index) by { assert s'.senders[i].Writing?; }
    forall k | 0 <= k < |s.senders| && s.senders[k].Writing? ensures s.senders[k].index < index { IndexBelow(c, s, k); }
    hide Positions, SenderOk;
  }

  lemma ReservedOk(c: Config, s: State, i: nat, s': State)
    requires Inv(c, s) && Next(c, s, Reserve(i)) == Some(s')
    ensures SenderOk(c, s', s'.senders[i])
  {
    hide Place, Words, ReserveEnd, Delivered;
    assert s'.messages[..|s.messages|] == s.messages;
  }

  /** Different words that are unread or in flight are kept in different places. */
  lemma PlacesDiffer(c: Config, s: State, v: nat, w: nat)
    requires Inv(c, s) && |s.received| <= v < Total(s.messages) && |s.received| <= w < Total(s.messages) && v != w
    ensures Place(c, v) != Place(c, w)
  {
    if v < w { PlaceInjective(c, v, w); } else { PlaceInjective(c, w, v); }
  }

  /** The word at j of an in-flight message is unread, and inside the reservation. */
  lemma InFlight(c: Config, s: State, index: nat, j: nat)
    requires Inv(c, s) && s.committed <= index < |s.messages| && j < |s.messages[index]|
    ensures |s.received| <= Start(s.messages, s.committed) <= Start(s.messages, index) <= Start(s.messages, index)
      + j < Total(s.messages)
  {
    StartsAscend(s.messages, s.committed, index);
    StartsAscend(s.messages, index, |s.messages|);
    StartEnd(s.messages);
  }

  lemma WriteKeepsSender(c: Config, s: State, i: nat, s': State, k: nat)
    requires Inv(c, s) && Next(c, s, Write(i)) == Some(s') && k < |s.senders| && k != i
    ensures SenderOk(c, s', s.senders[k])
  {
    hide Place, Words, Total, Start, Delivered, Positions;
    var x, y := s.senders[i], s.senders[k];
    assert SenderOk(c, s, x) && SenderOk(c, s, y);
    if y.Writing? {
      forall j | 0 <= j < y.count ensures s'.memory[Place(c, Start(s.messages, y.index) + j)] == y.values[j] {
        OtherMessage(c, s, x.index, x.count, y.index, j);
      }
      hide Inv;
    }
  }

  /** Words of different messages in flight are kept in different places. */
  lemma OtherMessage(c: Config, s: State, a: nat, i: nat, b: nat, j: nat)
    requires Inv(c, s) && s.committed <= a < |s.messages| && s.committed <= b < |s.messages| && a != b
    requires i < |s.messages[a]| && j < |s.messages[b]|
    ensures Place(c, Start(s.messages, a) + i) != Place(c, Start(s.messages, b) + j)
  {
    hide Inv;
    InFlight(c, s, a, i);
    InFlight(c, s, b, j);
    if a < b { StartsAscend(s.messages, a, b); } else { StartsAscend(s.messages, b, a); }
    hide Place, Total, Start;
    PlacesDiffer(c, s, Start(s.messages, a) + i, Start(s.messages, b) + j);
  }

  lemma WriteKeepsOwn(c: Config, s: State, i: nat, s': State)
    requires Inv(c, s) && Next(c, s, Write(i)) == Some(s')
    ensures SenderOk(c, s', s'.senders[i])
  {
    hide Place, Words, Total, Start, Delivered, Positions, Owners, NextOffset;
    var x, x' := s.senders[i], s'.senders[i];
    assert SenderOk(c, s, x);
    var v := Start(s.messages, x.index) + x.count;
    PlaceNext(c, v);
    forall j | 0 <= j < x'.count ensures s'.memory[Place(c, Start(s.messages, x.index) + j)] == x.values[j] {
      if j < x.count {
        InFlight(c, s, x.index, x.count);
        InFlight(c, s, x.index, j);
        PlacesDiffer(c, s, v, Start(s.messages, x.index) + j);
      }
    }
    hide Inv;
  }

  lemma WriteDelivered(c: Config, s: State, i: nat, s': State)
    requires Inv(c, s) && Next(c, s, Write(i)) == Some(s')
    ensures Delivered(c, s')
  {
    hide Place, Words, Total, Start, Positions, Owners, NextOffset;
    var x := s.senders[i];
    assert SenderOk(c, s, x);
    InFlight(c, s, x.index, x.count);
    forall v: nat | |s.received| <= v < Start(s.messages, s.committed) && v < Total(s.messages)
      ensures s'.memory[Place(c, v)] == Words(s.messages)[v]
    {
      PlacesDiffer(c, s, v, Start(s.messages, x.index) + x.count);
    }
    hide Inv;
  }

  lemma InvWrite(c: Config, s: State, i: nat, s': State)
    requires Inv(c, s) && Next(c, s, Write(i)) == Some(s')
    ensures Inv(c, s')
  {
    hide Place, Words, Total, Start, Delivered, SenderOk, NextOffset;
    forall k | 0 <= k < |s'.senders| ensures SenderOk(c, s', s'.senders[k]) {
      if k != i { WriteKeepsSender(c, s, i, s', k); } else { WriteKeepsOwn(c, s, i, s'); }
    }
    WriteDelivered(c, s, i, s');
    OwnersKept(s, s', i);
    assert s.senders[i].index < |s.messages| by { IndexBelow(c, s, i); }
    assert Owned(s', s.senders[i].index) by { assert s'.senders[i].Writing?; }
  }

  /** Only the sender of the first message in flight finds the done position at its start, and
      it does unless the queue is stuck. */
  lemma CommitInOrder(c: Config, s: State, i: nat)
    requires Inv(c, s) && i < |s.senders| && s.senders[i].Writing?
    ensures s.done == s.senders[i].start <==> s.senders[i].index == s.committed && !Stuck(c, s)
  {
    var x := s.senders[i];
    assert SenderOk(c, s, x) && x.values in s.messages;
    InFlight(c, s, x.index, 0);
    if x.index != s.committed {
      StartsAscend(s.messages, s.committed, x.index);
      assert s.messages[s.committed] in s.messages;
      PlacesDiffer(c, s, Start(s.messages, s.committed), Start(s.messages, x.index));
    }
  }

  /** A commit that can succeed goes to where the next message starts, or to the end. */
  lemma CommitPlace(c: Config, s: State, i: nat)
    requires Inv(c, s) && !Stuck(c, s) && i < |s.senders| && s.senders[i].Writing? && s.senders[i].index == s.committed
    ensures CommitEnd(c, s.senders[i].start, |s.senders[i].values|) == Mark(c, Start(s.messages, s.committed + 1))
  {
    var x := s.senders[i];
    assert SenderOk(c, s, x) && x.values in s.messages;
    var v, n := Start(s.messages, x.index), |x.values|;
    StartNext(s.messages, x.index);
    InFlight(c, s, x.index, n - 1);
    PlaceAdd(c, v, n);
    if c.mode.AsWritten? { EndPlace(c, v, n); }
  }

  /** As written, from places in the first two rounds. */
  lemma EndPlace(c: Config, v: nat, n: nat)
    requires ConfigOk(c) && c.mode.AsWritten? && v != c.Capacity() && 0 < n && v + n < 2 * c.Capacity()
    ensures CommitEnd(c, Place(c, v), n) == Mark(c, v + n)
  {
    RoundPlace(c, v);
    RoundPlace(c, v + n);
  }

  lemma RoundPlace(c: Config, v: nat)
    requires ConfigOk(c) && v < 2 * c.Capacity()
    ensures Place(c, v) == HEADER + (if v < c.Capacity() then v else v - c.Capacity())
  {
    if v >= c.Capacity() { ModIs(v, 1, v - c.Capacity(), c.Capacity()); }
  }

  lemma SmallPlace(c: Config, v: nat)
    requires ConfigOk(c) && v < c.Capacity()
    ensures Place(c, v) == HEADER + v
  {
  }

  /** The numbers and the words after a commit. */
  lemma CommitDelivered(c: Config, s: State, i: nat, s': State)
    requires Inv(c, s) && Next(c, s, Commit(i)) == Some(s')
    ensures s.senders[i].index == s.committed && Positions(c, s') && Delivered(c, s')
  {
    hide Place, Words, Total, Start, CommitEnd, Owners;
    var x := s.senders[i];
    CommitInOrder(c, s, i);
    CommitPlace(c, s, i);
    assert SenderOk(c, s, x);
    StartNext(s.messages, s.committed);
    StartsAscend(s.messages, s.committed + 1, |s.messages|);
    StartEnd(s.messages);
    forall v: nat | |s.received| <= v < Start(s.messages, s.committed + 1) && v < Total(s.messages)
      ensures s.memory[Place(c, v)] == Words(s.messages)[v]
    {
      if v >= Start(s.messages, s.committed) { WordAt(s.messages, x.index, v - Start(s.messages, x.index)); }
    }
    hide Inv;
  }

  lemma InvCommit(c: Config, s: State, i: nat, s': State)
    requires Inv(c, s) && Next(c, s, Commit(i)) == Some(s')
    ensures Inv(c, s')
  {
    hide Place, Words, Total, Start, CommitEnd, Delivered, Positions;
    CommitDelivered(c, s, i, s');
    IndexBelow(c, s, i);
    OwnersKept(s, s', i);
    forall k | 0 <= k < |s'.senders| ensures SenderOk(c, s', s'.senders[k]) {
      if k != i {
        if s.senders[k].Writing? { IndexBelow(c, s, k); }
        SenderKept(c, s, s', s.senders[k]);
      }
    }
    hide SenderOk;
  }

  lemma ReadPositions(c: Config, s: State, beyond: nat, s': State)
    requires Inv(c, s) && Next(c, s, Read(beyond)) == Some(s') && Inside(c, s')
    ensures Positions(c, s') && Delivered(c, s')
  {
    hide Place, Words, Total, Start, SenderOk, Owners, NextOffset;
    var u := |s.received|;
    assert u < Start(s.messages, s.committed);
    StartsAscend(s.messages, s.committed, |s.messages|);
    StartEnd(s.messages);
    PlaceNext(c, u);
    if c.mode.AsWritten? { SmallPlace(c, u); if u + 1 < c.Capacity() { SmallPlace(c, u + 1); } }
    assert Words(s.messages)[..u + 1] == Words(s.messages)[..u] + [Words(s.messages)[u]];
  }

  lemma InvRead(c: Config, s: State, beyond: nat, s': State)
    requires Inv(c, s) && Next(c, s, Read(beyond)) == Some(s') && Inside(c, s')
    ensures Inv(c, s')
  {
    hide Place, Words, Total, Start, Delivered, Positions, ReadNext;
    ReadPositions(c, s, beyond, s');
    forall k | 0 <= k < |s'.senders| ensures SenderOk(c, s', s'.senders[k]) { SenderKept(c, s, s', s.senders[k]); }
    hide SenderOk;
    forall index | s'.committed <= index < |s'.messages| ensures Owned(s', index) { assert Owned(s, index); }
  }

  lemma StepKeepsInv(c: Config, s: State, e: Event, s': State)
    requires Inv(c, s) && Allowed(c, s, e) && Next(c, s, e) == Some(s') && Inside(c, s')
    ensures Inv(c, s')
  {
    hide Inv;
    match e {
      case Read(beyond) => InvRead(c, s, beyond, s');
      case Begin(i, values) =>
        assert ConfigOk(c) && |s.memory| == c.size by { InvSize(c, s); }
        InvPlain(c, s, i, Loaded(values, s.reserve));
      case Reserve(i) => InvReserve(c, s, i, s');
      case ReserveFails(i) =>
        LoadedOk(c, s, i);
        InvPlain(c, s, i, Loaded(s.senders[i].values, s.reserve));
      case Write(i) => InvWrite(c, s, i, s');
      case Commit(i) => InvCommit(c, s, i, s');
      case CommitFails(i) =>
    }
  }

  lemma InvSize(c: Config, s: State)
    requires Inv(c, s)
    ensures ConfigOk(c) && |s.memory| == c.size
  {
  }

  lemma LoadedOk(c: Config, s: State, i: nat)
    requires Inv(c, s) && i < |s.senders| && s.senders[i].Loaded?
    ensures ConfigOk(c) && |s.memory| == c.size && SenderOk(c, s, Loaded(s.senders[i].values, s.reserve))
  {
    assert SenderOk(c, s, s.senders[i]);
  }

  lemma InitialInv(c: Config, memory: seq<nat>, senders: nat)
    requires ConfigOk(c) && |memory| == c.size
    ensures Inv(c, Initial(memory, senders))
  {
    assert 0 % c.Capacity() == 0;
  }

  // ---------------------------------------------------------------- main results

  /** Delivery: however the senders and the reader interleave, the reader has seen exactly the
      first words of the committed messages, whole and in reservation order; as written, until
      it goes past the end of the memory. */
  lemma {:induction false} Delivery(c: Config, memory: seq<nat>, senders: nat, run: seq<State>, events: seq<Event>)
    requires ConfigOk(c) && |memory| == c.size && IsRun(c, run, events) && run[0] == Initial(memory, senders)
    ensures forall k | 0 <= k < |run| && Inside(c, run[k]) ::
      run[k].committed <= |run[k].messages| && run[k].received <= Words(run[k].messages[..run[k].committed])
    ensures forall k | 0 <= k < |run| && Inside(c, run[k]) :: Inv(c, run[k])
  {
    hide Inv;
    InitialInv(c, memory, senders);
    for k := 0 to |events|
      invariant forall j | 0 <= j <= k && Inside(c, run[j]) :: Inv(c, run[j])
    {
      assert Next(c, run[k], events[k]) == Some(run[k + 1]) && Allowed(c, run[k], events[k]);
      if Inside(c, run[k + 1]) { StepKeepsInv(c, run[k], events[k], run[k + 1]); }
    }
    forall k | 0 <= k < |run| && Inside(c, run[k])
      ensures run[k].committed <= |run[k].messages| && run[k].received <= Words(run[k].messages[..run[k].committed])
    {
      ReceivedCommitted(c, run[k]);
    }
  }

  lemma {:induction false} WordsPrefix(messages: seq<seq<nat>>, n: nat)
    requires n <= |messages|
    ensures Words(messages[..n]) <= Words(messages)
    decreases |messages|
  {
    if n < |messages| {
      var less := messages[..|messages| - 1];
      WordsPrefix(less, n);
      assert less[..n] == messages[..n];
    } else {
      assert messages[..n] == messages;
    }
  }

  lemma ReceivedCommitted(c: Config, s: State)
    requires Inv(c, s)
    ensures s.committed <= |s.messages| && s.received <= Words(s.messages[..s.committed])
  {
    WordsPrefix(s.messages, s.committed);
  }

  /** Progress: the reservations in flight follow one another from the done position to the
      reserve position, each with exactly one owner; so whenever there are any, the first of
      them has an owner, who alone can commit, and it is enabled once its words are written.
      As written this ends, for all senders, when the done position is at the end of the memory. */
  lemma Progress(c: Config, s: State)
    requires Inv(c, s)
    ensures forall k | s.committed <= k < |s.messages| ::
      Start(s.messages, k + 1) == Start(s.messages, k) + |s.messages[k]|
    ensures Stuck(c, s) <==> s.done == c.size
    ensures !Stuck(c, s) ==> (s.done != s.reserve <==> s.committed < |s.messages|)
    ensures s.committed < |s.messages| ==> exists i :: Owner(s, i) && CommitsAlone(c, s, i)
  {
    forall k | s.committed <= k < |s.messages|
      ensures Start(s.messages, k + 1) == Start(s.messages, k) + |s.messages[k]|
    {
      StartNext(s.messages, k);
    }
    DoneAndReserve(c, s);
    if s.committed < |s.messages| {
      hide Place, Total, Start, Words, Delivered, SenderOk, Next, CommitEnd, Stuck;
      assert Owned(s, s.committed);
      var i :| 0 <= i < |s.senders| && s.senders[i].Writing? && s.senders[i].index == s.committed;
      assert Owner(s, i);
      forall k | 0 <= k < |s.senders| ensures CommitEnabled(c, s, i, k) { OnlyOwnerCommits(c, s, i, k); }
    }
  }

  ghost predicate CommitEnabled(c: Config, s: State, i: nat, k: nat) {
    k < |s.senders| &&
    (Next(c, s, Commit(k)).Some? <==>
      k == i && s.senders[k].Writing? && s.senders[k].count == |s.senders[k].values| && !Stuck(c, s))
  }

  ghost predicate CommitsAlone(c: Config, s: State, i: nat) {
    forall k | 0 <= k < |s.senders| :: CommitEnabled(c, s, i, k)
  }

  lemma OnlyOwnerCommits(c: Config, s: State, i: nat, k: nat)
    requires Inv(c, s) && Owner(s, i) && k < |s.senders|
    ensures CommitEnabled(c, s, i, k)
  {
    hide Place, Total, Start, Words, Delivered, SenderOk, CommitEnd, Mark, Stuck;
    if s.senders[k].Writing? {
      CommitInOrder(c, s, k);
      if k == i && !Stuck(c, s) { CommitPlace(c, s, k); }
    }
  }

  /** The sender of the first message in flight. */
  ghost predicate Owner(s: State, i: nat) {
    i < |s.senders| && s.senders[i].Writing? && s.senders[i].index == s.committed
  }

  lemma DoneAndReserve(c: Config, s: State)
    requires Inv(c, s)
    ensures Stuck(c, s) <==> s.done == c.size
    ensures !Stuck(c, s) ==> (s.done != s.reserve <==> s.committed < |s.messages|)
  {
    StartEnd(s.messages);
    if s.committed < |s.messages| {
      assert s.messages[s.committed] in s.messages;
      StartsAscend(s.messages, s.committed, |s.messages|);
      PlaceInjective(c, Start(s.messages, s.committed), Total(s.messages));
    }
  }

  // ---------------------------------------------------------------- where the wrap tests disagree

  /** The reservation and the commit of a message end at the same place, unless the message
      fills the memory exactly to its end. */
  lemma EndsAgree(size: nat, start: nat, n: nat)
    requires ConfigOk(Config(AsWritten, size)) && HEADER <= start < size && n < size - HEADER - 20
    ensures var c := Config(AsWritten, size); ReserveEnd(c, start, n) == CommitEnd(c, start, n) <==> start + n != size
  {
  }

  /** The reader goes where the writers go, unless it is at the last word. */
  lemma ReaderAgrees(size: nat, offset: nat)
    requires ConfigOk(Config(AsWritten, size)) && HEADER <= offset < size
    ensures var c := Config(AsWritten, size); ReadNext(c, offset) == NextOffset(c, offset) <==> offset + 1 != size
  {
  }

  /** Every reservation that was made or is being attempted starts inside the memory. */
  ghost predicate StartsInside(c: Config, s: State) {
    && HEADER <= s.reserve < c.size
    && forall i | 0 <= i < |s.senders| && !s.senders[i].Idle? ::
         s.senders[i].start < c.size && |s.senders[i].values| < c.size - HEADER - 20
  }

  /** Once a commit has gone to the end of the memory, no commit succeeds any more, in any run,
      with or without limits. */
  lemma {:induction false} StuckForever(c: Config, run: seq<State>, events: seq<Event>)
    requires c.mode.AsWritten? && ConfigOk(c) && |run| == |events| + 1
    requires forall k | 0 <= k < |events| :: Next(c, run[k], events[k]) == Some(run[k + 1])
    requires run[0].done == c.size && StartsInside(c, run[0])
    ensures forall k | 0 <= k < |run| :: run[k].done == c.size
    ensures forall k | 0 <= k < |events| :: !events[k].Commit?
  {
    for k := 0 to |events|
      invariant StartsInside(c, run[k])
      invariant forall j | 0 <= j <= k :: run[j].done == c.size
      invariant forall j | 0 <= j < k :: !events[j].Commit?
    {
      assert Next(c, run[k], events[k]) == Some(run[k + 1]);
    }
  }

  /** Such a state is reached by a single message that ends at the end of the memory. */
  lemma CommitAtEndSticks(c: Config, s: State, i: nat, s': State)
    requires c.mode.AsWritten? && ConfigOk(c) && StartsInside(c, s)
    requires Next(c, s, Commit(i)) == Some(s') && s.senders[i].start + |s.senders[i].values| == c.size
    ensures s'.done == c.size && StartsInside(c, s')
  {
  }

  /** The next word is read from inside the memory exactly when the reader has read less than a
      memory full, as written. */
  lemma ReadsInside(c: Config, s: State, beyond: nat, s': State)
    requires Inv(c, s) && Next(c, s, Read(beyond)) == Some(s')
    ensures s.user < c.size <==> Inside(c, s')
    ensures !Inside(c, s') ==> s'.received == s.received + [beyond]
  {
  }

  // ---------------------------------------------------------------- both failures are reached

  lemma Extend(c: Config, run: seq<State>, events: seq<Event>, e: Event, s': State)
    requires Follows(c, run, events) && Next(c, run[|events|], e) == Some(s')
    ensures Follows(c, run + [s'], events + [e])
    ensures IsRun(c, run, events) && Allowed(c, run[|events|], e) ==> IsRun(c, run + [s'], events + [e])
  {
    hide Next, Allowed;
  }

  predicate AllIdle(s: State) {
    |s.senders| > 0 && forall i | 0 <= i < |s.senders| :: s.senders[i].Idle?
  }

  /** Everything was read, and the senders are idle, after v words of the first round. */
  ghost predicate Quiet(c: Config, s: State, v: nat) {
    && |s.memory| == c.size && AllIdle(s)
    && s.done == s.user == HEADER + v && s.reserve == (if HEADER + v == c.size then HEADER else HEADER + v)
    && s.committed == |s.messages| && |s.received| == Total(s.messages) == v && s.received == Words(s.messages)
  }

  /** The states in which a message of one word is sent and read, when the rest was read. */
  function Single(c: Config, s: State, w: nat): seq<State>
    requires s.reserve < |s.memory| && AllIdle(s)
  {
    var at, index := s.reserve, |s.messages|;
    var s1 := Set(s, 0, Loaded([w], at));
    var s2 := Set(s1, 0, Writing([w], at, at, 0, index)).(
      reserve := if at + 1 == c.size then HEADER else at + 1, messages := s.messages + [[w]]);
    var s3 := Set(s2, 0, Writing([w], at, at, 1, index)).(memory := s.memory[at := w]);
    var s4 := Set(s3, 0, Idle).(done := at + 1, committed := s.committed + 1);
    [s1, s2, s3, s4, s4.(user := at + 1, received := s.received + [w])]
  }

  lemma SingleSteps(c: Config, s: State, w: nat, v: nat)
    requires c.size > HEADER + 21 && c.mode.AsWritten? && v < c.Capacity() && Quiet(c, s, v)
    ensures var t := Single(c, s, w);
      && Next(c, s, Begin(0, [w])) == Some(t[0]) && Next(c, t[0], Reserve(0)) == Some(t[1])
      && Next(c, t[1], Write(0)) == Some(t[2]) && Next(c, t[2], Commit(0)) == Some(t[3])
           && Next(c, t[3], Read(0)) == Some(t[4])
    ensures Allowed(c, Single(c, s, w)[0], Reserve(0))
  {
    hide Words, Total;
  }

  lemma SingleQuiet(c: Config, s: State, w: nat, v: nat)
    requires v < c.Capacity() && Quiet(c, s, v)
    ensures Quiet(c, Single(c, s, w)[4], v + 1)
  {
    Appended(s.messages, [w]);
    hide Words, Total, Start;
  }

  /** A message of one word is sent and read. */
  lemma SendOne(c: Config, run: seq<State>, events: seq<Event>, w: nat, v: nat)
      returns (run': seq<State>, events': seq<Event>)
    requires c.size > HEADER + 21 && c.mode.AsWritten? && IsRun(c, run, events) && v < c.Capacity()
    requires Quiet(c, run[|events|], v)
    ensures IsRun(c, run', events') && run'[0] == run[0] && Quiet(c, run'[|events'|], v + 1)
  {
    var s := run[|events|];
    var t := Single(c, s, w);
    SingleSteps(c, s, w, v);
    SingleQuiet(c, s, w, v);
    hide IsRun, Follows, Single, Quiet, Next;
    run', events' := run, events;
    run', events' := Then(c, run', events', Begin(0, [w]), t[0]);
    run', events' := Then(c, run', events', Reserve(0), t[1]);
    run', events' := Then(c, run', events', Write(0), t[2]);
    run', events' := Then(c, run', events', Commit(0), t[3]);
    run', events' := Then(c, run', events', Read(0), t[4]);
  }

  lemma Then(c: Config, run: seq<State>, events: seq<Event>, e: Event, s': State)
      returns (run': seq<State>, events': seq<Event>)
    requires IsRun(c, run, events) && Next(c, run[|events|], e) == Some(s') && Allowed(c, run[|events|], e)
    ensures IsRun(c, run', events') && run'[0] == run[0] && run'[|events'|] == s'
  {
    hide Next, Allowed;
    Extend(c, run, events, e, s');
    run', events' := run + [s'], events + [e];
  }

  /** As many messages of one word as are wanted, up to the end of the memory. */
  lemma SendMany(c: Config, memory: seq<nat>, senders: nat, n: nat) returns (run: seq<State>, events: seq<Event>)
    requires c.size > HEADER + 21 && c.mode.AsWritten? && |memory| == c.size && n <= c.Capacity() && senders > 0
    ensures IsRun(c, run, events) && run[0] == Initial(memory, senders) && Quiet(c, run[|events|], n)
  {
    run, events := [Initial(memory, senders)], [];
    assert Quiet(c, run[0], 0);
    hide IsRun, Quiet;
    for v := 0 to n
      invariant IsRun(c, run, events) && run[0] == Initial(memory, senders) && Quiet(c, run[|events|], v)
    {
      run, events := SendOne(c, run, events, v, v);
    }
  }

  /** The run ends where no commit ever succeeds again. */
  ghost predicate Sticks(c: Config, memory: seq<nat>, senders: nat, run: seq<State>, events: seq<Event>) {
    IsRun(c, run, events) && run[0] == Initial(memory, senders) && run[|events|].done == c.size
  }

  /** As written, every queue in which anything can be sent at all has a run to such a state:
      a sender that sends one word at a time, and a reader that keeps up, come to the end of
      the memory. */
  lemma SticksInSomeRun(c: Config, memory: seq<nat>, senders: nat) returns (run: seq<State>, events: seq<Event>)
    requires c.size > HEADER + 21 && c.mode.AsWritten? && |memory| == c.size && senders > 0
    ensures Sticks(c, memory, senders, run, events)
    ensures StartsInside(c, run[|events|]) && Inside(c, run[|events|])
  {
    run, events := SendMany(c, memory, senders, c.Capacity());
  }

  /** In smaller queues nothing can be sent, and the positions stay where they are. */
  lemma NothingFits(c: Config, memory: seq<nat>, senders: nat, run: seq<State>, events: seq<Event>)
    requires HEADER < c.size <= HEADER + 21 && Follows(c, run, events) && run[0] == Initial(memory, senders)
    ensures forall k | 0 <= k < |run| :: run[k] == run[0]
  {
    for k := 0 to |events|
      invariant forall j | 0 <= j <= k :: run[j] == run[0]
    {
      assert Next(c, run[k], events[k]) == Some(run[k + 1]);
    }
  }

  /** As written, a queue can come to such a state if and only if a word can be sent. */
  lemma SticksIffFits(c: Config, memory: seq<nat>, senders: nat)
    requires c.size > HEADER && c.mode.AsWritten? && |memory| == c.size && senders > 0
    ensures (exists run, events :: Sticks(c, memory, senders, run, events)) <==> c.size > HEADER + 21
  {
    if c.size > HEADER + 21 {
      var run, events := SticksInSomeRun(c, memory, senders);
    }
    forall run, events | c.size <= HEADER + 21 ensures !Sticks(c, memory, senders, run, events) {
      if IsRun(c, run, events) && run[0] == Initial(memory, senders) {
        NothingFits(c, memory, senders, run, events);
      }
    }
  }

  /** The states in which a message of two words straddles the end, when the rest was read. */
  function Straddle(c: Config, s: State, x: nat, y: nat): seq<State>
    requires s.reserve + 1 == c.size == |s.memory| && AllIdle(s) && c.size > HEADER
  {
    var m, at, index := [x, y], s.reserve, |s.messages|;
    var s1 := Set(s, 0, Loaded(m, at));
    var s2 := Set(s1, 0, Writing(m, at, at, 0, index)).(reserve := HEADER + 1, messages := s.messages + [m]);
    var s3 := Set(s2, 0, Writing(m, at, HEADER, 1, index)).(memory := s.memory[at := x]);
    var s4 := Set(s3, 0, Writing(m, at, HEADER, 2, index)).(memory := s3.memory[HEADER := y]);
    [s1, s2, s3, s4, Set(s4, 0, Idle).(done := HEADER + 1, committed := s.committed + 1)]
  }

  lemma StraddleSteps(c: Config, s: State, x: nat, y: nat)
    requires c.size > HEADER + 22 && c.mode.AsWritten? && Quiet(c, s, c.Capacity() - 1)
    ensures var t := Straddle(c, s, x, y);
      && Next(c, s, Begin(0, [x, y])) == Some(t[0]) && Next(c, t[0], Reserve(0)) == Some(t[1])
      && Next(c, t[1], Write(0)) == Some(t[2]) && Next(c, t[2], Write(0)) == Some(t[3])
           && Next(c, t[3], Commit(0)) == Some(t[4])
    ensures Allowed(c, Straddle(c, s, x, y)[0], Reserve(0))
  {
    hide Words, Total;
  }

  lemma SendStraddling(c: Config, run: seq<State>, events: seq<Event>, x: nat, y: nat)
      returns (run': seq<State>, events': seq<Event>)
    requires c.size > HEADER + 22 && c.mode.AsWritten? && IsRun(c, run, events)
    requires Quiet(c, run[|events|], c.Capacity() - 1)
    ensures IsRun(c, run', events') && run'[0] == run[0]
    ensures run'[|events'|] == Straddle(c, run[|events|], x, y)[4]
  {
    var s := run[|events|];
    var t := Straddle(c, s, x, y);
    StraddleSteps(c, s, x, y);
    hide IsRun, Follows, Straddle, Quiet, Next;
    run', events' := run, events;
    run', events' := Then(c, run', events', Begin(0, [x, y]), t[0]);
    run', events' := Then(c, run', events', Reserve(0), t[1]);
    run', events' := Then(c, run', events', Write(0), t[2]);
    run', events' := Then(c, run', events', Write(0), t[3]);
    run', events' := Then(c, run', events', Commit(0), t[4]);
  }

  /** The states of the reader after that: it goes on past the end of the memory. */
  function Stray(c: Config, t: State, b1: nat, b2: nat): seq<State>
    requires |t.memory| == c.size > HEADER && t.user < c.size
  {
    var t1 := t.(user := c.size, received := t.received + [t.memory[t.user]]);
    var t2 := t1.(user := c.size + 1, received := t1.received + [b1]);
    var t3 := t2.(user := HEADER, received := t2.received + [b2]);
    [t1, t2, t3, t3.(user := HEADER + 1, received := t3.received + [t.memory[HEADER]])]
  }

  lemma StraySteps(c: Config, t: State, b1: nat, b2: nat)
    requires c.mode.AsWritten? && |t.memory| == c.size > HEADER + 1 && t.user + 1 == c.size && t.done == HEADER + 1
    requires t.user != t.done
    ensures var r := Stray(c, t, b1, b2);
      && Next(c, t, Read(0)) == Some(r[0]) && Next(c, r[0], Read(b1)) == Some(r[1])
      && Next(c, r[1], Read(b2)) == Some(r[2]) && Next(c, r[2], Read(0)) == Some(r[3])
  {
  }

  lemma StrayWords(c: Config, s: State, t: State, b1: nat, b2: nat)
    requires c.size > HEADER + 22 && Quiet(c, s, c.Capacity() - 1) && t == Straddle(c, s, 1, 2)[4]
    ensures var r := Stray(c, t, b1, b2)[3]; var ws := Words(r.messages);
      && r.committed == |r.messages| && |ws| == c.Capacity() + 1
      && r.received == ws[..c.Capacity()] + [b1, b2] + ws[c.Capacity()..] && !(r.received <= ws)
  {
    Appended(s.messages, [1, 2]);
    hide Words, Total, Start;
  }

  /** As written, every queue in which two words can be sent at once has a run in which the
      reader sees two stray words, whatever they are, in the middle of a message. */
  lemma ReadsStrayWords(c: Config, memory: seq<nat>, senders: nat, b1: nat, b2: nat)
      returns (run: seq<State>, events: seq<Event>)
    requires c.size > HEADER + 22 && c.mode.AsWritten? && |memory| == c.size && senders > 0
    ensures IsRun(c, run, events) && run[0] == Initial(memory, senders)
    ensures var s := run[|events|]; var ws := Words(s.messages);
      && s.committed == |s.messages| && |ws| == c.Capacity() + 1
      && s.received == ws[..c.Capacity()] + [b1, b2] + ws[c.Capacity()..] && !(s.received <= ws)
  {
    run, events := SendMany(c, memory, senders, c.Capacity() - 1);
    var s := run[|events|];
    run, events := SendStraddling(c, run, events, 1, 2);
    var t := run[|events|];
    var r := Stray(c, t, b1, b2);
    StraySteps(c, t, b1, b2);
    StrayWords(c, s, t, b1, b2);
    hide IsRun, Follows, Words, Quiet, Straddle, Stray, Next;
    run, events := Then(c, run, events, Read(0), r[0]);
    run, events := Then(c, run, events, Read(b1), r[1]);
    run, events := Then(c, run, events, Read(b2), r[2]);
    run, events := Then(c, run, events, Read(0), r[3]);
  }

  /** All messages are one word long, and the committed ones do not go past the end. */
  ghost predicate OneByOne(c: Config, s: State) {
    && (forall m | m in s.messages :: |m| == 1)
    && s.committed <= |s.messages| && Start(s.messages, s.committed) <= c.Capacity()
  }

  lemma OneByOneStep(c: Config, s: State, e: Event, s': State)
    requires c.size <= HEADER + 22 && c.mode.AsWritten? && Inv(c, s) && OneByOne(c, s)
    requires Allowed(c, s, e) && Next(c, s, e) == Some(s')
    ensures Inv(c, s') && OneByOne(c, s')
  {
    hide Place, Words, Total, CommitEnd, Delivered, Owners, Mark, Start, NextOffset, ReserveEnd;
    if e.Read? {
      ReadIsCommitted(c, s, e.beyond);
    } else if e.Commit? {
      CommitInOrder(c, s, e.i);
      StartNext(s.messages, s.committed);
    } else if e.Reserve? {
      assert SenderOk(c, s, s.senders[e.i]);
      SameStart(s.messages, s.senders[e.i].values, s.committed);
    }
    hide Inv, SenderOk, Allowed;
    StepKeepsInv(c, s, e, s');
  }

  lemma ReadIsCommitted(c: Config, s: State, beyond: nat)
    requires Inv(c, s) && Next(c, s, Read(beyond)).Some?
    ensures |s.received| < Start(s.messages, s.committed)
  {
    hide Words, Total, Start, Place, Delivered, SenderOk, Owners;
  }

  /** The reader saw something else than what was sent. */
  ghost predicate Strays(c: Config, memory: seq<nat>, senders: nat, run: seq<State>, events: seq<Event>) {
    && IsRun(c, run, events) && run[0] == Initial(memory, senders)
    && !(run[|events|].received <= Words(run[|events|].messages))
  }

  lemma NoneStray(c: Config, memory: seq<nat>, senders: nat, run: seq<State>, events: seq<Event>)
    requires ConfigOk(c) && c.size <= HEADER + 22 && c.mode.AsWritten? && |memory| == c.size
    requires IsRun(c, run, events) && run[0] == Initial(memory, senders)
    ensures run[|events|].received <= Words(run[|events|].messages)
  {
    InitialInv(c, memory, senders);
    assert OneByOne(c, run[0]);
    hide Inv, OneByOne, Initial;
    for k := 0 to |events|
      invariant Inv(c, run[k]) && OneByOne(c, run[k])
    {
      OneByOneStep(c, run[k], events[k], run[k + 1]);
    }
    ReceivedCommitted(c, run[|events|]);
    WordsPrefix(run[|events|].messages, run[|events|].committed);
  }

  /** As written, the reader of a queue can see something else than what was sent if and only if
      two words can be sent at once. */
  lemma StraysIffTwoFit(c: Config, memory: seq<nat>, senders: nat)
    requires ConfigOk(c) && c.mode.AsWritten? && |memory| == c.size && senders > 0
    ensures (exists run, events :: Strays(c, memory, senders, run, events)) <==> c.size > HEADER + 22
  {
    if c.size > HEADER + 22 {
      var run, events := ReadsStrayWords(c, memory, senders, 0, 0);
      assert Strays(c, memory, senders, run, events);
    }
    forall run, events | c.size <= HEADER + 22 ensures !Strays(c, memory, senders, run, events) {
      if IsRun(c, run, events) && run[0] == Initial(memory, senders) {
        NoneStray(c, memory, senders, run, events);
      }
    }
  }

  // ---------------------------------------------------------------- the operations, undisturbed

  /** The queue in memory, with its operations as they run when nobody interferes: each one is
      the atomic steps above in a row. */
  class MultipleSenderQueue {
    const c: Config
    const memory: array<nat>
    var reserve: nat
    var done: nat
    var user: nat

    ghost predicate Valid()
      reads this
    {
      ConfigOk(c) && memory.Length == c.size && HEADER <= reserve < c.size
        && user <= c.size + (if c.mode.AsWritten? then 1 else -1) && done <= c.size
    }

    constructor (c: Config, memory: array<nat>)
      requires ConfigOk(c) && memory.Length == c.size
      ensures Valid() && this.c == c && this.memory == memory && reserve == done == user == HEADER
    {
      this.c, this.memory := c, memory;
      reserve, done, user := HEADER, HEADER, HEADER;
    }

    predicate ShouldILoad()
      reads this
    {
      done != user
    }

    /** Moves the reserve position; the room starts where it was. */
    method AllocateMemory(elements: nat) returns (start: nat)
      requires Valid() && elements < c.size - HEADER - 20
      modifies this`reserve
      ensures Valid() && start == old(reserve) && reserve == ReserveEnd(c, start, elements)
    {
      start := reserve;
      var end := start + elements;
      if end >= c.size { end := end - (c.size - HEADER); }
      reserve := end;
    }

    /** Writes a message and commits it. */
    method WriteValues(values: seq<nat>)
      requires Valid() && 0 < |values| < c.size - HEADER - 20 && done == reserve
      modifies this`reserve, this`done, memory
      ensures Valid() && reserve == ReserveEnd(c, old(reserve), |values|)
      ensures done == reserve <==> c.mode.Corrected? || old(reserve) + |values| != c.size
      ensures memory[..] == Stored(c, old(memory[..]), old(reserve) - HEADER, values)
    {
      var start := AllocateMemory(|values|);
      SmallPlace(c, start - HEADER);
      hide Place, Stored;
      WriteWords(start, values, start - HEADER);
      done := CommitEnd(c, start, |values|);
    }

    /** The words one by one, from the start of the room on. */
    method WriteWords(start: nat, values: seq<nat>, ghost v: nat)
      requires Valid() && 0 < |values| < c.Capacity() && start == Place(c, v)
      modifies memory
      ensures memory[..] == Stored(c, old(memory[..]), v, values)
    {
      hide Place, NextOffset;
      ghost var before := memory[..];
      var offset := start;
      memory[offset] := values[0];
      assert values[..1] == [] + [values[0]];
      StoredMore(c, before, v, [], values[0]);
      for x := 1 to |values|
        invariant offset == Place(c, v + x - 1)
        invariant memory[..] == Stored(c, before, v, values[..x])
      {
        ghost var mem := memory[..];
        PlaceNext(c, v + x - 1);
        offset := NextOffset(c, offset);
        memory[offset] := values[x];
        assert memory[..] == mem[offset := values[x]];
        StoredMore(c, before, v, values[..x], values[x]);
        assert values[..x] + [values[x]] == values[..x + 1];
      }
      assert values[..|values|] == values;
    }

    /** Reads the next word and moves on; past the end of the memory, whatever word is there. */
    method GetNextValue(beyond: nat) returns (word: nat)
      requires Valid() && ShouldILoad()
      modifies this`user
      ensures Valid() && word == (if old(user) < c.size then memory[old(user)] else beyond)
      ensures user == ReadNext(c, old(user))
    {
      var offset := user;
      word := if offset < c.size then memory[offset] else beyond;
      user := ReadNext(c, offset);
    }
  }

  /** Memory with the words of a message at the places from a virtual position on. */
  function Stored(c: Config, memory: seq<nat>, v: nat, values: seq<nat>): (r: seq<nat>)
    requires ConfigOk(c) && |memory| == c.size
    ensures |r| == c.size
  {
    if values == [] then memory
    else
      var n := |values| - 1;
      Stored(c, memory, v, values[..n])[Place(c, v + n) := values[n]]
  }

  lemma StoredMore(c: Config, memory: seq<nat>, v: nat, values: seq<nat>, word: nat)
    requires ConfigOk(c) && |memory| == c.size
    ensures Stored(c, memory, v, values + [word]) == Stored(c, memory, v, values)[Place(c, v + |values|) := word]
  {
    assert (values + [word])[..|values|] == values;
  }

  ghost predicate Hit(c: Config, v: nat, j: nat, p: nat)
    requires ConfigOk(c)
  {
    Place(c, v + j) == p
  }

  /** A message shorter than the capacity is stored whole, and nothing else is overwritten. */
  lemma {:induction false} StoredAt(c: Config, memory: seq<nat>, v: nat, values: seq<nat>)
    requires ConfigOk(c) && |memory| == c.size && |values| < c.Capacity()
    ensures forall j: nat | j < |values| :: Stored(c, memory, v, values)[Place(c, v + j)] == values[j]
    ensures forall p: nat | p < c.size ::
      (exists j: nat :: j < |values| && Hit(c, v, j, p)) || Stored(c, memory, v, values)[p] == memory[p]
    decreases |values|
  {
    hide Place;
    if values != [] {
      var n := |values| - 1;
      StoredAt(c, memory, v, values[..n]);
      assert Hit(c, v, n, Place(c, v + n));
      forall j: nat | j < |values| ensures Stored(c, memory, v, values)[Place(c, v + j)] == values[j] {
        if j < n { PlaceInjective(c, v + j, v + n); }
      }
    }
  }
}
