/** `RedisQueue`: one Redis list for each id, meant to hold a sentinel at index 0 and the
    messages after it. */
module RedisQueues {
  import opened Sequences
  import opened Fifo

  /** The Redis keyspace; an absent key and an empty list are the same thing to Redis. */
  type Lists = map<string, seq<string>>

  // ---------------------------------------------------------------- Redis list commands

  /** A list index with negative numbers counted from the end, cut off below 0. */
  function FromEnd(i: int, n: nat): nat {
    if i >= 0 then i else if n + i >= 0 then n + i else 0
  }

  /** LRANGE key start stop: both ends included, out-of-range ends cut off. */
  function Lrange(l: seq<string>, start: int, stop: int): seq<string> {
    var lo := FromEnd(start, |l|);
    var hi := if stop < 0 && |l| + stop < 0 then -1 else FromEnd(stop, |l|);
    var end := if hi + 1 < |l| then hi + 1 else |l|;
    if lo < end then l[lo..end] else []
  }

  /** LTRIM keeps what LRANGE with the same ends would return. */
  function Ltrim(l: seq<string>, start: int, stop: int): seq<string> {
    Lrange(l, start, stop)
  }

  function Lindex(l: seq<string>, i: int): Option<string> {
    if 0 <= i < |l| then Some(l[i]) else if i < 0 && |l| + i >= 0 then Some(l[|l| + i]) else None
  }

  // ---------------------------------------------------------------- the queue operations

  function Store(lists: Lists, id: string, l: seq<string>): Lists {
    lists[id := l]
  }

  function Execute(lists: Lists, op: Op): (Lists, Reply) {
    var l := Get(lists, op.id);
    match op
    case Enqueue(id, m) => (Store(lists, id, l + [m]), Done)
    case Dequeue(id, limit) =>
      if limit.Some? && limit.value != 0 then
        var last := limit.value + 1;
        (Store(lists, id, Ltrim(l, last, -1)), Messages(Lrange(l, 1, last)))
      else
        (Store(lists, id, Ltrim(l, 0, 0)), Messages(Lrange(l, 1, -1)))
    case Peek(_) => (lists, Front(Lindex(l, 1)))
    case Size(_) => (lists, Count(|l| - 1))
    case Clear(id) => (Store(lists, id, []), Done)
  }

  /** What the operations take for the queue: the list without its first place. */
  function Seen(l: seq<string>): seq<string> {
    if l == [] then [] else l[1..]
  }

  // ---------------------------------------------------------------- where it is a queue

  /** Under each of these ids the list has its sentinel, and the messages follow it. */
  ghost predicate Represents(lists: Lists, q: Queues, ids: set<string>) {
    forall id :: id in ids ==> Get(lists, id) != [] && Get(lists, id)[1..] == Get(q, id)
  }

  /** Enqueue, dequeue without a limit, peek and size. */
  predicate Plain(op: Op) {
    match op
    case Dequeue(_, limit) => limit.None? || limit.value == 0
    case Clear(_) => false
    case _ => true
  }

  lemma {:induction false} PlainRefines(lists: Lists, q: Queues, ids: set<string>, op: Op)
    requires Represents(lists, q, ids) && op.id in ids && Plain(op)
    ensures Represents(Execute(lists, op).0, Fifo.Step(q, op).0, ids)
    ensures Execute(lists, op).1 == Fifo.Step(q, op).1
  {
    var l, lists', q' := Get(lists, op.id), Execute(lists, op).0, Fifo.Step(q, op).0;
    assert l != [] && l[1..] == Get(q, op.id);
    forall id | id in ids ensures Get(lists', id) != [] && Get(lists', id)[1..] == Get(q', id) {
      if id == op.id {
        if op.Enqueue? {
          assert (l + [op.message])[1..] == l[1..] + [op.message];
        }
      } else {
        assert Get(lists', id) == Get(lists, id) && Get(q', id) == Get(q, id);
      }
    }
  }

  function ExecuteAll(lists: Lists, ops: seq<Op>): (Lists, seq<Reply>)
    decreases |ops|
  {
    if ops == [] then (lists, [])
    else
      var (lists1, r) := Execute(lists, ops[0]);
      var (lists2, rs) := ExecuteAll(lists1, ops[1..]);
      (lists2, [r] + rs)
  }

  /** With the sentinels in place, every run of plain operations answers as the FIFO queues
      do (and so as the SQLite table does) and keeps the sentinels. */
  lemma {:induction false} PlainRunRefines(lists: Lists, q: Queues, ids: set<string>, ops: seq<Op>)
    requires Represents(lists, q, ids) && forall op :: op in ops ==> op.id in ids && Plain(op)
    ensures ExecuteAll(lists, ops).1 == Fifo.Run(q, ops).1
    ensures Represents(ExecuteAll(lists, ops).0, Fifo.Run(q, ops).0, ids)
    decreases |ops|
  {
    if ops != [] {
      assert ops[0] in ops;
      PlainRefines(lists, q, ids, ops[0]);
      PlainRunRefines(Execute(lists, ops[0]).0, Fifo.Step(q, ops[0]).0, ids, ops[1..]);
    }
  }

  // ---------------------------------------------------------------- the queue object

  function Last(l: seq<string>, n: nat): seq<string> {
    if n < |l| then l[|l| - n..] else l
  }

  /** LRANGE 1 -1 and LTRIM 0 0. */
  lemma {:induction false} WholeQueue(l: seq<string>)
    ensures Lrange(l, 1, -1) == Seen(l) && Ltrim(l, 0, 0) == l[..if l == [] then 0 else 1]
  {
  }

  /** LRANGE 1 n and LTRIM n -1. */
  lemma {:induction false} QueueUpTo(l: seq<string>, n: int)
    requires n > 1
    ensures |l| > n ==> Lrange(l, 1, n) == l[1..n + 1] && Ltrim(l, n, -1) == l[n..]
    ensures |l| <= n ==> Lrange(l, 1, n) == Seen(l) && Ltrim(l, n, -1) == []
  {
  }

  /** The same with the end counted from behind. */
  lemma {:induction false} QueueFromBehind(l: seq<string>, n: int)
    requires n > 0
    ensures Lrange(l, 1, -n) == (if |l| > n then l[1..|l| - n + 1] else []) && Ltrim(l, -n, -1) == Last(l, n)
  {
  }

  lemma {:induction false} QueueUntouched(l: seq<string>)
    ensures Lrange(l, 1, 0) == [] && Ltrim(l, 0, -1) == l
  {
  }

  class RedisQueue {
    var lists: Lists

    constructor (sid: string)
      ensures forall id :: List(id) == if id == sid then ["<start>"] else []
    {
      lists := map[sid := ["<start>"]];
    }

    ghost function List(id: string): seq<string>
      reads this
    {
      Get(lists, id)
    }

    /** The message joins the queue, unless there is no sentinel: then it takes its place. */
    method DoEnqueue(id: string, message: string)
      modifies this
      ensures old(List(id)) != [] ==>
        List(id) != [] && List(id)[0] == old(List(id))[0] && Seen(List(id)) == Seen(old(List(id))) + [message]
      ensures old(List(id)) == [] ==> List(id) == [message] && Seen(List(id)) == []
      ensures forall other :: other != id ==> List(other) == old(List(other))
    {
      lists := Store(lists, id, Get(lists, id) + [message]);
    }

    /** Without a limit the whole queue is handed out and the sentinel stays. With a positive one
        up to one message more than asked for is handed out; the rest keeps its order, and the
        message in the sentinel's place has been handed out already, or nothing is left. A
        negative limit counts from the end, and -1 does nothing. */
    method DoDequeue(id: string, limit: Option<int>) returns (vals: seq<string>)
      modifies this
      ensures limit.None? || limit.value == 0 ==>
        vals == Seen(old(List(id))) && List(id) == old(List(id))[..if old(List(id)) == [] then 0 else 1]
      ensures limit.Some? && limit.value > 0 && |Seen(old(List(id)))| > limit.value ==>
        (vals + Seen(List(id)) == Seen(old(List(id))) && |vals| == limit.value + 1
         && List(id) != [] && List(id)[0] == vals[limit.value])
      ensures limit.Some? && limit.value > 0 && |Seen(old(List(id)))| <= limit.value ==>
        vals == Seen(old(List(id))) && List(id) == []
      ensures limit == Some(-1) ==> vals == [] && List(id) == old(List(id))
      ensures limit.Some? && limit.value < -1 ==>
        (List(id) == Last(old(List(id)), -limit.value - 1)
         && |vals| == (if |Seen(old(List(id)))| > -limit.value - 2 then |Seen(old(List(id)))| + limit.value + 2 else 0)
         && vals == Seen(old(List(id)))[..|vals|])
      ensures forall other :: other != id ==> List(other) == old(List(other))
    {
      hide Lrange, Ltrim;
      var l := Get(lists, id);
      WholeQueue(l);
      QueueUntouched(l);
      if limit.Some? && limit.value > 0 {
        QueueUpTo(l, limit.value + 1);
      } else if limit.Some? && limit.value < -1 {
        QueueFromBehind(l, -limit.value - 1);
      }
      if limit.Some? && limit.value != 0 {
        var last := limit.value + 1;
        vals := Lrange(l, 1, last);
        lists := Store(lists, id, Ltrim(l, last, -1));
      } else {
        vals := Lrange(l, 1, -1);
        lists := Store(lists, id, Ltrim(l, 0, 0));
      }
    }

    method DoPeek(id: string) returns (front: Option<string>)
      ensures front == if Seen(List(id)) == [] then None else Some(Seen(List(id))[0])
    {
      front := Lindex(Get(lists, id), 1);
    }

    /** One less than the queue has if the sentinel is missing. */
    method DoSize(id: string) returns (n: int)
      ensures n == if List(id) == [] then -1 else |Seen(List(id))|
    {
      n := |Get(lists, id)| - 1;
    }

    /** The sentinel goes with the messages. */
    method DoClear(id: string)
      modifies this
      ensures List(id) == [] && forall other :: other != id ==> List(other) == old(List(other))
    {
      lists := Store(lists, id, []);
    }

    /** One plain operation under an id that has its sentinel. */
    method Perform(ghost q: Queues, ghost ids: set<string>, op: Op) returns (r: Reply)
      requires Represents(lists, q, ids) && op.id in ids && Plain(op)
      modifies this
      ensures Represents(lists, Fifo.Step(q, op).0, ids) && r == Fifo.Step(q, op).1
    {
      assert List(op.id) != [] && Seen(List(op.id)) == Get(q, op.id);
      ghost var before := lists;
      match op {
        case Enqueue(id, m) =>
          DoEnqueue(id, m);
          r := Done;
        case Dequeue(id, limit) =>
          var vals := DoDequeue(id, limit);
          r := Messages(vals);
        case Peek(id) =>
          var front := DoPeek(id);
          r := Front(front);
        case Size(id) =>
          var n := DoSize(id);
          r := Count(n);
      }
      forall id | id in ids ensures Get(lists, id) != [] && Get(lists, id)[1..] == Get(Fifo.Step(q, op).0, id) {
        assert Get(before, id) != [] && Get(before, id)[1..] == Get(q, id);
        assert id != op.id ==> List(id) == Get(before, id);
      }
    }

    /** Any number of them. */
    method PerformAll(ghost q: Queues, ghost ids: set<string>, ops: seq<Op>) returns (replies: seq<Reply>)
      requires Represents(lists, q, ids) && forall op :: op in ops ==> op.id in ids && Plain(op)
      modifies this
      ensures Represents(lists, Fifo.Run(q, ops).0, ids) && replies == Fifo.Run(q, ops).1
      decreases |ops|
    {
      if ops == [] {
        return [];
      }
      assert ops[0] in ops;
      var first := Perform(q, ids, ops[0]);
      var rest := PerformAll(Fifo.Step(q, ops[0]).0, ids, ops[1..]);
      return [first] + rest;
    }
  }

  // ---------------------------------------------------------------- where it is not

  /** A dequeue with a positive limit hands out one message too many if there are more, and
      otherwise empties the list, sentinel included: it never both gives the answer of the
      FIFO queue and leaves a list with a sentinel place. */
  lemma {:induction false} LimitedDequeue(lists: Lists, q: Queues, id: string, limit: int)
    requires Represents(lists, q, {id}) && limit > 0
    ensures var n, op := |Get(q, id)|, Dequeue(id, Some(limit));
      && (Execute(lists, op).1 == Fifo.Step(q, op).1 <==> n <= limit)
      && (Get(Execute(lists, op).0, id) != [] <==> n > limit)
  {
    var l, op := Get(lists, id), Dequeue(id, Some(limit));
    var vals := Lrange(l, 1, limit + 1);
    assert Execute(lists, op).1 == Messages(vals);
    assert l[1..] == Get(q, id);
    if |l| - 1 <= limit {
      assert vals == l[1..];
    } else {
      assert |vals| == limit + 1;
    }
  }

  /** The operations that answer as the FIFO queue does and keep the sentinel: the plain ones; and
      with a negative limit a dequeue from an empty queue, or with the limit -2 any. */
  predicate Refining(op: Op, queue: seq<string>) {
    Plain(op) || (op.Dequeue? && op.limit.Some? && op.limit.value < 0 && (queue == [] || op.limit.value == -2))
  }

  lemma {:induction false} NegativeDequeue(lists: Lists, q: Queues, id: string, limit: int)
    requires Represents(lists, q, {id}) && limit < 0
    ensures var op := Dequeue(id, Some(limit));
      Execute(lists, op).1 == Fifo.Step(q, op).1 && Represents(Execute(lists, op).0, Fifo.Step(q, op).0, {id})
      <==> Get(q, id) == [] || limit == -2
  {
    hide Lrange, Ltrim;
    var l, op := Get(lists, id), Dequeue(id, Some(limit));
    assert l != [] && l[1..] == Get(q, id);
    QueueUntouched(l);
    if limit < -1 {
      QueueFromBehind(l, -limit - 1);
    }
  }

  /** An operation refines that of the FIFO queue if and only if it is one of those. */
  lemma {:induction false} RefinesExactly(lists: Lists, q: Queues, op: Op)
    requires Represents(lists, q, {op.id})
    ensures Execute(lists, op).1 == Fifo.Step(q, op).1
        && Represents(Execute(lists, op).0, Fifo.Step(q, op).0, {op.id})
      <==> Refining(op, Get(q, op.id))
  {
    if Plain(op) {
      PlainRefines(lists, q, {op.id}, op);
    } else if op.Dequeue? {
      hide Execute, Fifo.Step;
      if op.limit.value > 0 {
        LimitedDequeue(lists, q, op.id, op.limit.value);
      } else {
        NegativeDequeue(lists, q, op.id, op.limit.value);
      }
    }
  }

  /** Once the sentinel is gone the next message takes its place and is never seen: size says
      0 and peek says nothing although a message was enqueued. */
  lemma {:induction false} LostSentinel(lists: Lists, id: string, message: string)
    requires Get(lists, id) == []
    ensures var lists' := Execute(lists, Enqueue(id, message)).0;
      && Execute(lists', Size(id)).1 == Count(0)
      && Execute(lists', Peek(id)).1 == Front(None)
      && Execute(lists', Dequeue(id, None)).1 == Messages([])
  {
    assert [] + [message] == [message];
  }

  /** `clear` loses it: whatever was there, after clear and one enqueue the size is 0 here and
      1 in the FIFO queue. */
  lemma {:induction false} ClearLosesSentinel(lists: Lists, q: Queues, id: string, message: string)
    ensures var add := Enqueue(id, message);
      && Execute(Execute(Execute(lists, Clear(id)).0, add).0, Size(id)).1 == Count(0)
      && Fifo.Step(Fifo.Step(Fifo.Step(q, Clear(id)).0, add).0, Size(id)).1 == Count(1)
  {
    LostSentinel(Execute(lists, Clear(id)).0, id, message);
    assert [] + [message] == [message];
  }
}
