/** What a `FileSystemQueue` is for: one first-in first-out queue of messages for each id. */
module Fifo {
  import opened Sequences

  /** `limit` is as passed to `dequeue`: None, 0 and (in SQLite) negative numbers mean no limit. */
  datatype Op =
    | Enqueue(id: string, message: string)
    | Dequeue(id: string, limit: Option<int>)
    | Peek(id: string)
    | Size(id: string)
    | Clear(id: string)

  datatype Reply = Done | Messages(messages: seq<string>) | Front(message: Option<string>) | Count(n: int)

  type Queues = map<string, seq<string>>

  function Get(q: Queues, id: string): seq<string> {
    if id in q then q[id] else []
  }

  /** How many of `n` queued messages a dequeue with this limit takes. */
  function Taken(limit: Option<int>, n: nat): (k: nat)
    ensures k <= n
  {
    if limit.Some? && 0 < limit.value < n then limit.value else n
  }

  function Step(q: Queues, op: Op): (Queues, Reply) {
    var c := Get(q, op.id);
    match op
    case Enqueue(id, m) => (q[id := c + [m]], Done)
    case Dequeue(id, limit) => (q[id := c[Taken(limit, |c|)..]], Messages(c[..Taken(limit, |c|)]))
    case Peek(_) => (q, Front(if c == [] then None else Some(c[0])))
    case Size(_) => (q, Count(|c|))
    case Clear(id) => (q[id := []], Done)
  }

  function Run(q: Queues, ops: seq<Op>): (Queues, seq<Reply>)
    decreases |ops|
  {
    if ops == [] then (q, [])
    else
      var (q1, r) := Step(q, ops[0]);
      var (q2, rs) := Run(q1, ops[1..]);
      (q2, [r] + rs)
  }

  lemma {:induction false} RunShape(q: Queues, ops: seq<Op>)
    ensures |Run(q, ops).1| == |ops|
    decreases |ops|
  {
    if ops != [] {
      RunShape(Step(q, ops[0]).0, ops[1..]);
    }
  }

  /** Messages put on `id` since its last clear (`before` counts from earlier). */
  function Enqueued(ops: seq<Op>, id: string, before: seq<string>): seq<string>
    decreases |ops|
  {
    if ops == [] then before
    else
      Enqueued(ops[1..], id,
        if ops[0].id != id then before
        else if ops[0].Clear? then []
        else if ops[0].Enqueue? then before + [ops[0].message]
        else before)
  }

  /** Messages handed out from `id` since its last clear. */
  function Returned(ops: seq<Op>, replies: seq<Reply>, id: string, before: seq<string>): seq<string>
    requires |replies| == |ops|
    decreases |ops|
  {
    if ops == [] then before
    else
      Returned(ops[1..], replies[1..], id,
        if ops[0].id != id then before
        else if ops[0].Clear? then []
        else if ops[0].Dequeue? && replies[0].Messages? then before + replies[0].messages
        else before)
  }

  /** Nothing is lost, invented or reordered: what was returned since the last clear, followed
      by what is still queued, is what was put in since then. */
  lemma {:induction false} Conservation(q: Queues, ops: seq<Op>, id: string, put: seq<string>, got: seq<string>)
    requires got + Get(q, id) == put
    ensures |Run(q, ops).1| == |ops|
    ensures Returned(ops, Run(q, ops).1, id, got) + Get(Run(q, ops).0, id) == Enqueued(ops, id, put)
    decreases |ops|
  {
    RunShape(q, ops);
    if ops != [] {
      var op, q1, r := ops[0], Step(q, ops[0]).0, Step(q, ops[0]).1;
      assert Run(q, ops).1[0] == r && Run(q, ops).1[1..] == Run(q1, ops[1..]).1;
      if op.id != id {
        assert Get(q1, id) == Get(q, id);
        Conservation(q1, ops[1..], id, put, got);
      } else {
        var c := Get(q, id);
        match op {
          case Enqueue(_, m) => Conservation(q1, ops[1..], id, put + [m], got);
          case Dequeue(_, limit) =>
            var k := Taken(limit, |c|);
            assert c == c[..k] + c[k..];
            assert (got + c[..k]) + c[k..] == got + c;
            Conservation(q1, ops[1..], id, put, got + c[..k]);
          case Clear(_) => Conservation(q1, ops[1..], id, [], []);
          case _ => Conservation(q1, ops[1..], id, put, got);
        }
      }
    }
  }
}

/** `SQLiteQueue`: rows (id, position, message) of one table, physically in any order. */
module SqliteQueues {
  import opened Sequences
  import opened StableSorting
  import opened Fifo

  datatype Row = Row(id: string, position: int, message: string)

  /** The primary key (id, position). */
  ghost predicate PrimaryKey(rows: seq<Row>) {
    forall i, j :: 0 <= i < j < |rows| ==> rows[i].id != rows[j].id || rows[i].position != rows[j].position
  }

  function Position(): Row -> int {
    (r: Row) => r.position
  }

  function HasId(id: string): Row -> bool {
    (r: Row) => r.id == id
  }

  function OtherId(id: string): Row -> bool {
    (r: Row) => r.id != id
  }

  /** SELECT … WHERE id = ? ORDER BY position ASC */
  function Select(rows: seq<Row>, id: string): seq<Row> {
    Sort(Filter(rows, HasId(id)), Position())
  }

  function MessagesOf(rows: seq<Row>): (r: seq<string>)
    ensures |r| == |rows|
  {
    Map(rows, (r: Row) => r.message)
  }

  /** The queue a table holds for an id. */
  function Contents(rows: seq<Row>, id: string): seq<string> {
    MessagesOf(Select(rows, id))
  }

  /** SELECT MAX(position) */
  function MaxPosition(rows: seq<Row>): (r: Option<int>)
    ensures r.None? <==> rows == []
    ensures r.Some? ==> forall i :: 0 <= i < |rows| ==> rows[i].position <= r.value
  {
    if rows == [] then None
    else match MaxPosition(rows[1..])
      case None => Some(rows[0].position)
      case Some(m) => Some(if rows[0].position > m then rows[0].position else m)
  }

  function NextPosition(rows: seq<Row>, id: string): int {
    match MaxPosition(Filter(rows, HasId(id)))
    case None => 0
    case Some(m) => m + 1
  }

  function Positions(rows: seq<Row>): set<int> {
    set r | r in rows :: r.position
  }

  /** The rows DELETE … WHERE id = ? AND position IN (…) leaves. */
  function Survives(id: string, positions: set<int>): Row -> bool {
    (r: Row) => !(r.id == id && r.position in positions)
  }

  function Execute(rows: seq<Row>, op: Op): (seq<Row>, Reply) {
    var selected := Select(rows, op.id);
    match op
    case Enqueue(id, m) => (rows + [Row(id, NextPosition(rows, id), m)], Done)
    case Dequeue(id, limit) =>
      var fetched := selected[..Taken(limit, |selected|)];
      (Filter(rows, Survives(id, Positions(fetched))), Messages(MessagesOf(fetched)))
    case Peek(_) => (rows, Front(if selected == [] then None else Some(selected[0].message)))
    case Size(id) => (rows, Count(|Filter(rows, HasId(id))|))
    case Clear(id) => (Filter(rows, OtherId(id)), Done)
  }

  // ---------------------------------------------------------------- one operation

  lemma {:induction false} FilterKeepsKey(rows: seq<Row>, p: Row -> bool)
    requires PrimaryKey(rows)
    ensures PrimaryKey(Filter(rows, p))
  {
    if rows != [] {
      FilterKeepsKey(rows[1..], p);
      forall r | r in Filter(rows[1..], p) ensures r.id != rows[0].id || r.position != rows[0].position {
        var j :| 0 <= j < |rows[1..]| && rows[1..][j] == r;
        assert rows[j + 1] == r;
      }
    }
  }

  lemma {:induction false} ClassConcat(a: seq<Row>, b: seq<Row>, k: int)
    ensures Class(a + b, Position(), k) == Class(a, Position(), k) + Class(b, Position(), k)
  {
    if a == [] {
      assert a + b == b;
    } else {
      assert (a + b)[0] == a[0] && (a + b)[1..] == a[1..] + b;
      ClassConcat(a[1..], b, k);
    }
  }

  lemma {:induction false} ClassUnique(rows: seq<Row>, id: string, k: int)
    requires PrimaryKey(rows) && forall r :: r in rows ==> r.id == id
    ensures |Class(rows, Position(), k)| <= 1
  {
    if rows != [] {
      var row, rest := rows[0], rows[1..];
      ClassUnique(rest, id, k);
      if row.position == k {
        forall r | r in rest ensures Position()(r) != k {
          var j :| 0 <= j < |rest| && rest[j] == r;
          assert rows[j + 1] == r;
        }
        ClassNone(rest, Position(), k);
      }
    }
  }

  /** A row behind every row of a table sorts last. */
  lemma {:induction false} SortSnoc(rows: seq<Row>, x: Row)
    requires forall r :: r in rows ==> r.position < x.position
    ensures Sort(rows + [x], Position()) == Sort(rows, Position()) + [x]
  {
    var r := Sort(rows, Position()) + [x];
    SortIsStable(rows, Position());
    forall i | 0 <= i < |r| - 1 ensures r[i].position < x.position {
      assert r[i] in multiset(Sort(rows, Position()));
    }
    forall k ensures Class(r, Position(), k) == Class(rows + [x], Position(), k) {
      ClassConcat(Sort(rows, Position()), [x], k);
      ClassConcat(rows, [x], k);
    }
    StableSortUnique(rows + [x], Position(), r);
  }

  lemma {:induction false} RestClass(rows: seq<Row>, id: string, gone: seq<Row>, rest: seq<Row>, j: int)
    requires PrimaryKey(rows) && forall r :: r in rows ==> r.id == id
    requires Class(gone + rest, Position(), j) == Class(rows, Position(), j)
    ensures Class(rest, Position(), j) == Class(Filter(rows, Survives(id, Positions(gone))), Position(), j)
  {
    ClassConcat(gone, rest, j);
    ClassUnique(rows, id, j);
    KeptClass(rows, id, Positions(gone), j);
    var front := Class(gone, Position(), j);
    if j in Positions(gone) {
      var r :| r in gone && r.position == j;
      assert Position()(r) == j && r in front;
      assert |front| + |Class(rest, Position(), j)| <= 1;
    } else {
      forall r | r in gone ensures Position()(r) != j {
        assert r.position in Positions(gone);
      }
      ClassNone(gone, Position(), j);
    }
  }

  /** Deleting the rows fetched from the front leaves the rest of the order. */
  lemma {:induction false} SortWithout(rows: seq<Row>, id: string, k: nat)
    requires PrimaryKey(rows) && forall r :: r in rows ==> r.id == id
    requires k <= |rows|
    ensures |Sort(rows, Position())| == |rows|
    ensures var s := Sort(rows, Position());
      Sort(Filter(rows, Survives(id, Positions(s[..k]))), Position()) == s[k..]
  {
    hide Sort, Filter, Class;
    var s := Sort(rows, Position());
    assert |multiset(s)| == |multiset(rows)|;
    var gone, rest := s[..k], s[k..];
    var kept := Filter(rows, Survives(id, Positions(gone)));
    SortIsStable(rows, Position());
    assert s == gone + rest;
    forall j ensures Class(rest, Position(), j) == Class(kept, Position(), j) {
      assert Class(s, Position(), j) == Class(rows, Position(), j);
      RestClass(rows, id, gone, rest, j);
    }
    StableSortUnique(kept, Position(), rest);
  }

  lemma {:induction false} KeptClass(rows: seq<Row>, id: string, positions: set<int>, j: int)
    requires forall r :: r in rows ==> r.id == id
    ensures Class(Filter(rows, Survives(id, positions)), Position(), j) ==
      if j in positions then [] else Class(rows, Position(), j)
  {
    if rows != [] {
      KeptClass(rows[1..], id, positions, j);
      if Survives(id, positions)(rows[0]) {
        ClassCons(rows[0], Filter(rows[1..], Survives(id, positions)), Position(), j);
      }
    }
  }

  lemma {:induction false} MessagesConcat(a: seq<Row>, b: seq<Row>)
    ensures MessagesOf(a + b) == MessagesOf(a) + MessagesOf(b)
  {
  }

  lemma {:induction false} MessagesSplit(rows: seq<Row>, k: nat)
    requires k <= |rows|
    ensures MessagesOf(rows[..k]) == MessagesOf(rows)[..k] && MessagesOf(rows[k..]) == MessagesOf(rows)[k..]
  {
  }

  lemma {:induction false} EnqueueContents(rows: seq<Row>, id: string, message: string, other: string)
    ensures var rows' := Execute(rows, Enqueue(id, message)).0;
      Contents(rows', other) == if other == id then Contents(rows, id) + [message] else Contents(rows, other)
  {
    var x := Row(id, NextPosition(rows, id), message);
    FilterSnoc(rows, x, HasId(other));
    if other == id {
      var own := Filter(rows, HasId(id));
      forall r | r in own ensures r.position < x.position {
        var i :| 0 <= i < |own| && own[i] == r;
      }
      SortSnoc(own, x);
      MessagesConcat(Select(rows, id), [x]);
    } else {
      assert Filter(rows, HasId(other)) + [] == Filter(rows, HasId(other));
    }
  }

  lemma {:induction false} EnqueueKeepsKey(rows: seq<Row>, id: string, message: string)
    requires PrimaryKey(rows)
    ensures PrimaryKey(Execute(rows, Enqueue(id, message)).0)
  {
    var own := Filter(rows, HasId(id));
    forall i | 0 <= i < |rows| && rows[i].id == id ensures rows[i].position < NextPosition(rows, id) {
      assert rows[i] in own;
      var j :| 0 <= j < |own| && own[j] == rows[i];
    }
  }

  lemma {:induction false} DeleteContents(rows: seq<Row>, id: string, k: nat, other: string)
    requires PrimaryKey(rows) && k <= |Select(rows, id)|
    ensures var rows' := Filter(rows, Survives(id, Positions(Select(rows, id)[..k])));
      Select(rows', other) == if other == id then Select(rows, id)[k..] else Select(rows, other)
  {
    var p := Survives(id, Positions(Select(rows, id)[..k]));
    FilterCommute(rows, p, HasId(other));
    if other == id {
      var own := Filter(rows, HasId(id));
      FilterKeepsKey(rows, HasId(id));
      assert |multiset(Select(rows, id))| == |multiset(own)|;
      SortWithout(own, id, k);
    } else {
      FilterAll(Filter(rows, HasId(other)), p);
    }
  }

  /** Fetching the first `k` rows of an id and deleting them. */
  lemma {:induction false} DequeueContents(rows: seq<Row>, id: string, k: nat, other: string)
    requires PrimaryKey(rows) && k <= |Select(rows, id)|
    ensures Contents(Filter(rows, Survives(id, Positions(Select(rows, id)[..k]))), other) ==
      if other == id then Contents(rows, id)[k..] else Contents(rows, other)
    ensures MessagesOf(Select(rows, id)[..k]) == Contents(rows, id)[..k]
  {
    hide Select, Filter, MessagesOf;
    DeleteContents(rows, id, k, other);
    MessagesSplit(Select(rows, id), k);
  }

  lemma {:induction false} FilterCommute(rows: seq<Row>, p: Row -> bool, q: Row -> bool)
    ensures Filter(Filter(rows, p), q) == Filter(Filter(rows, q), p)
  {
    if rows != [] {
      var x, rest := rows[0], rows[1..];
      FilterCommute(rest, p, q);
      assert p(x) ==> ([x] + Filter(rest, p))[1..] == Filter(rest, p);
      assert q(x) ==> ([x] + Filter(rest, q))[1..] == Filter(rest, q);
    }
  }

  lemma {:induction false} ClearContents(rows: seq<Row>, id: string, other: string)
    ensures Contents(Execute(rows, Clear(id)).0, other) == if other == id then [] else Contents(rows, other)
  {
    hide Sort, Filter, MessagesOf;
    var p := OtherId(id);
    FilterCommute(rows, p, HasId(other));
    if other == id {
      FilterNone(Filter(rows, HasId(id)), p);
      NoContents(Filter(rows, p), id);
    } else {
      FilterAll(Filter(rows, HasId(other)), p);
    }
  }

  lemma {:induction false} NoContents(rows: seq<Row>, id: string)
    requires Filter(rows, HasId(id)) == []
    ensures Contents(rows, id) == []
  {
  }

  // ---------------------------------------------------------------- refinement

  /** The table and the abstract queues hold the same messages under every id. */
  ghost predicate Represents(rows: seq<Row>, q: Queues) {
    forall id :: Contents(rows, id) == Get(q, id)
  }

  lemma {:induction false} EnqueueRefines(rows: seq<Row>, q: Queues, id: string, m: string)
    requires Represents(rows, q)
    ensures Represents(Execute(rows, Enqueue(id, m)).0, Fifo.Step(q, Enqueue(id, m)).0)
  {
    var rows', q' := Execute(rows, Enqueue(id, m)).0, Fifo.Step(q, Enqueue(id, m)).0;
    forall other ensures Contents(rows', other) == Get(q', other) {
      EnqueueContents(rows, id, m, other);
      assert Contents(rows, other) == Get(q, other);
      assert Contents(rows, id) == Get(q, id);
    }
  }

  lemma {:induction false} DequeueRefines(rows: seq<Row>, q: Queues, id: string, limit: Option<int>)
    requires PrimaryKey(rows) && Represents(rows, q)
    ensures Represents(Execute(rows, Dequeue(id, limit)).0, Fifo.Step(q, Dequeue(id, limit)).0)
    ensures Execute(rows, Dequeue(id, limit)).1 == Fifo.Step(q, Dequeue(id, limit)).1
  {
    var rows', q' := Execute(rows, Dequeue(id, limit)).0, Fifo.Step(q, Dequeue(id, limit)).0;
    hide Select, Filter, MessagesOf;
    var k := Taken(limit, |Select(rows, id)|);
    assert Contents(rows, id) == Get(q, id);
    DequeueContents(rows, id, k, id);
    forall other ensures Contents(rows', other) == Get(q', other) {
      DequeueContents(rows, id, k, other);
      assert Contents(rows, other) == Get(q, other);
    }
  }

  lemma {:induction false} ClearRefines(rows: seq<Row>, q: Queues, id: string)
    requires Represents(rows, q)
    ensures Represents(Execute(rows, Clear(id)).0, Fifo.Step(q, Clear(id)).0)
  {
    var rows', q' := Execute(rows, Clear(id)).0, Fifo.Step(q, Clear(id)).0;
    forall other ensures Contents(rows', other) == Get(q', other) {
      ClearContents(rows, id, other);
      assert Contents(rows, other) == Get(q, other);
    }
  }

  lemma {:induction false} FrontRefines(rows: seq<Row>, q: Queues, id: string)
    requires Represents(rows, q)
    ensures Execute(rows, Peek(id)).1 == Fifo.Step(q, Peek(id)).1
    ensures Execute(rows, Size(id)).1 == Fifo.Step(q, Size(id)).1
  {
    assert Contents(rows, id) == Get(q, id);
    SelectSize(rows, id);
  }

  lemma {:induction false} SelectSize(rows: seq<Row>, id: string)
    ensures |Filter(rows, HasId(id))| == |Contents(rows, id)|
  {
    assert |multiset(Select(rows, id))| == |multiset(Filter(rows, HasId(id)))|;
  }

  lemma {:induction false} ExecuteKeepsKey(rows: seq<Row>, op: Op)
    requires PrimaryKey(rows)
    ensures PrimaryKey(Execute(rows, op).0)
  {
    match op {
      case Enqueue(id, m) =>
        EnqueueKeepsKey(rows, id, m);
      case Dequeue(id, limit) =>
        var selected := Select(rows, id);
        FilterKeepsKey(rows, Survives(id, Positions(selected[..Taken(limit, |selected|)])));
      case Clear(id) =>
        FilterKeepsKey(rows, OtherId(id));
      case _ =>
    }
  }

  lemma {:induction false} StepRefines(rows: seq<Row>, q: Queues, op: Op)
    requires PrimaryKey(rows) && Represents(rows, q)
    ensures Represents(Execute(rows, op).0, Fifo.Step(q, op).0)
    ensures Execute(rows, op).1 == Fifo.Step(q, op).1
  {
    hide Represents, Contents;
    match op {
      case Enqueue(id, m) => EnqueueRefines(rows, q, id, m);
      case Dequeue(id, limit) => DequeueRefines(rows, q, id, limit);
      case Clear(id) => ClearRefines(rows, q, id);
      case Peek(id) => FrontRefines(rows, q, id);
      case Size(id) => FrontRefines(rows, q, id);
    }
  }

  function ExecuteAll(rows: seq<Row>, ops: seq<Op>): (seq<Row>, seq<Reply>)
    decreases |ops|
  {
    if ops == [] then (rows, [])
    else
      var (rows1, r) := Execute(rows, ops[0]);
      var (rows2, rs) := ExecuteAll(rows1, ops[1..]);
      (rows2, [r] + rs)
  }

  /** Over every run of operations on every id, limited dequeues and clears included, the
      table gives the answers of a family of independent FIFO queues and goes on representing
      them, with its primary key intact. */
  lemma {:induction false} RunRefines(rows: seq<Row>, q: Queues, ops: seq<Op>)
    requires PrimaryKey(rows) && Represents(rows, q)
    ensures ExecuteAll(rows, ops).1 == Fifo.Run(q, ops).1
    ensures PrimaryKey(ExecuteAll(rows, ops).0) && Represents(ExecuteAll(rows, ops).0, Fifo.Run(q, ops).0)
    decreases |ops|
  {
    if ops != [] {
      ExecuteKeepsKey(rows, ops[0]);
      StepRefines(rows, q, ops[0]);
      RunRefines(Execute(rows, ops[0]).0, Fifo.Step(q, ops[0]).0, ops[1..]);
    }
  }

  /** On the table itself: what was returned since the last clear of an id, followed by what
      the table still holds for it, is what was put in since then. */
  lemma {:induction false} TableConservation(ops: seq<Op>, id: string)
    ensures |ExecuteAll([], ops).1| == |ops|
    ensures Returned(ops, ExecuteAll([], ops).1, id, []) + Contents(ExecuteAll([], ops).0, id) == Enqueued(ops, id, [])
  {
    forall other ensures Contents([], other) == Get(map[], other) {
    }
    RunRefines([], map[], ops);
    Conservation(map[], ops, id, [], []);
    assert Contents(ExecuteAll([], ops).0, id) == Get(Fifo.Run(map[], ops).0, id);
  }

  // ---------------------------------------------------------------- the queue object

  /** The queue object; each method is one locked transaction. */
  class SqliteQueue {
    var rows: seq<Row>

    constructor ()
      ensures Valid() && forall id :: Queue(id) == []
    {
      rows := [];
    }

    ghost predicate Valid()
      reads this
    {
      PrimaryKey(rows)
    }

    /** What the table holds under an id, in order. */
    ghost function Queue(id: string): seq<string>
      reads this
    {
      Contents(rows, id)
    }

    method DoEnqueue(id: string, message: string)
      requires Valid()
      modifies this
      ensures Valid() && Queue(id) == old(Queue(id)) + [message]
      ensures forall other :: other != id ==> Queue(other) == old(Queue(other))
    {
      EnqueueKeepsKey(rows, id, message);
      forall other {:trigger Contents(rows, other)}
        ensures Contents(Execute(rows, Enqueue(id, message)).0, other) ==
          if other == id then Contents(rows, id) + [message] else Contents(rows, other)
      {
        EnqueueContents(rows, id, message, other);
      }
      var maxPos := MaxPosition(Filter(rows, HasId(id)));
      var nextPos := if maxPos.None? then 0 else maxPos.value + 1;
      rows := rows + [Row(id, nextPos, message)];
    }

    method DoDequeue(id: string, limit: Option<int>) returns (messages: seq<string>)
      requires Valid()
      modifies this
      ensures Valid() && messages + Queue(id) == old(Queue(id))
      ensures |messages| == if limit.Some? && 0 < limit.value < |old(Queue(id))| then limit.value else |old(Queue(id))|
      ensures forall other :: other != id ==> Queue(other) == old(Queue(other))
    {
      hide Select, Filter, MessagesOf, PrimaryKey, Positions;
      var selected := Select(rows, id);
      var fetched := if limit.Some? && 0 < limit.value < |selected| then selected[..limit.value] else selected;
      ghost var k := |fetched|;
      assert fetched == selected[..k] && |selected| == |Contents(rows, id)|;
      ghost var left := Filter(rows, Survives(id, Positions(fetched)));
      forall other {:trigger Contents(rows, other)}
        ensures Contents(left, other) == if other == id then Contents(rows, id)[k..] else Contents(rows, other)
      {
        DequeueContents(rows, id, k, other);
      }
      DequeueContents(rows, id, k, id);
      FilterKeepsKey(rows, Survives(id, Positions(fetched)));
      messages := MessagesOf(fetched);
      if fetched == [] {
        return;
      }
      hide Contents;
      rows := Filter(rows, Survives(id, Positions(fetched)));
    }

    method DoPeek(id: string) returns (front: Option<string>)
      ensures front == if Queue(id) == [] then None else Some(Queue(id)[0])
    {
      var selected := Select(rows, id);
      return if selected == [] then None else Some(selected[0].message);
    }

    method DoSize(id: string) returns (n: int)
      ensures n == |Queue(id)|
    {
      SelectSize(rows, id);
      return |Filter(rows, HasId(id))|;
    }

    method DoClear(id: string)
      requires Valid()
      modifies this
      ensures Valid() && Queue(id) == []
      ensures forall other :: other != id ==> Queue(other) == old(Queue(other))
    {
      hide PrimaryKey, Filter;
      FilterKeepsKey(rows, OtherId(id));
      ClearContents(rows, id, id);
      forall other {:trigger Contents(rows, other)}
        ensures Contents(Filter(rows, OtherId(id)), other) == if other == id then [] else Contents(rows, other)
      {
        ClearContents(rows, id, other);
      }
      hide Contents;
      rows := Filter(rows, OtherId(id));
    }

    ghost predicate Holds(q: Queues)
      reads this
    {
      forall id :: Queue(id) == Get(q, id)
    }

    /** One operation through the methods above: it answers as the FIFO queues do. */
    method Perform(ghost q: Queues, op: Op) returns (r: Reply)
      requires Valid() && Holds(q)
      modifies this
      ensures Valid() && Holds(Fifo.Step(q, op).0) && r == Fifo.Step(q, op).1
    {
      hide Contents, PrimaryKey;
      assert Queue(op.id) == Get(q, op.id);
      ghost var before := rows;
      match op {
        case Enqueue(id, m) =>
          DoEnqueue(id, m);
          r := Done;
        case Dequeue(id, limit) =>
          var messages := DoDequeue(id, limit);
          assert messages == (messages + Queue(id))[..|messages|] && Queue(id) == (messages + Queue(id))[|messages|..];
          r := Messages(messages);
        case Peek(id) =>
          var front := DoPeek(id);
          r := Front(front);
        case Size(id) =>
          var n := DoSize(id);
          r := Count(n);
        case Clear(id) =>
          DoClear(id);
          r := Done;
      }
      forall id ensures Queue(id) == Get(Fifo.Step(q, op).0, id) {
        assert Contents(before, id) == Get(q, id);
      }
    }

    /** Any number of operations, from an empty table on. */
    method PerformAll(ghost q: Queues, ops: seq<Op>) returns (replies: seq<Reply>)
      requires Valid() && Holds(q)
      modifies this
      ensures Valid() && Holds(Fifo.Run(q, ops).0) && replies == Fifo.Run(q, ops).1
      decreases |ops|
    {
      if ops == [] {
        return [];
      }
      var first := Perform(q, ops[0]);
      var rest := PerformAll(Fifo.Step(q, ops[0]).0, ops[1..]);
      return [first] + rest;
    }
  }

  // ---------------------------------------------------------------- the id of a session's queue

  /** `FileSystemQueue.sid`. */
  function QueueId(sid: string, klass: string): string {
    sid + "-" + klass
  }

  predicate EndsWith(s: string, end: string) {
    |end| <= |s| && s[|s| - |end|..] == end
  }

  /** Two sessions share a queue as soon as one class name ends with a dash and the other. */
  lemma {:induction false} IdsCollide(s: string, head: string, l: string)
    ensures QueueId(s + "-" + head, l) == QueueId(s, head + "-" + l) && s + "-" + head != s
  {
    assert |s + "-" + head| > |s|;
  }

  lemma {:induction false} EqualIds(s: string, k: string, t: string, l: string)
    requires QueueId(s, k) == QueueId(t, l) && |k| >= |l|
    ensures (s == t && k == l) || EndsWith(k, "-" + l)
  {
    var id := QueueId(s, k);
    assert k == id[|id| - |k|..];
    if |k| == |l| {
      assert s == id[..|s|] == t;
      assert l == id[|id| - |l|..];
    } else {
      assert "-" + l == id[|id| - |l| - 1..];
      assert k[|k| - |l| - 1..] == id[|id| - |k|..][|k| - |l| - 1..] == id[|id| - |l| - 1..];
    }
  }

  /** Queues of two classes are kept apart in all sessions if and only if neither class name ends
      with a dash and the other. */
  lemma {:induction false} IdsApart(k: string, l: string)
    ensures (forall s, t :: QueueId(s, k) == QueueId(t, l) ==> s == t && k == l)
      <==> !EndsWith(k, "-" + l) && !EndsWith(l, "-" + k)
  {
    hide EndsWith;
    forall s, t | QueueId(s, k) == QueueId(t, l) && !(s == t && k == l)
      ensures EndsWith(k, "-" + l) || EndsWith(l, "-" + k)
    {
      if |k| >= |l| {
        EqualIds(s, k, t, l);
      } else {
        EqualIds(t, l, s, k);
      }
    }
    if EndsWith(k, "-" + l) {
      Collide(k, l);
    }
    if EndsWith(l, "-" + k) {
      Collide(l, k);
    }
  }

  lemma {:induction false} Collide(k: string, l: string)
    requires EndsWith(k, "-" + l)
    ensures exists s, t :: QueueId(s, k) == QueueId(t, l) && s != t
  {
    var head := k[..|k| - |l| - 1];
    assert k == head + "-" + l;
    IdsCollide("", head, l);
  }
}
