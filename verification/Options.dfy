/** The options of a trial: a cursor over alternatives, and the enumeration of every combination
    of them, where a choice can bring further options with it. */
module Options {
  import opened Sequences

  type Lists<T> = seq<seq<T>>

  // ---------------------------------------------------------------- the cursor

  class Cursor<T> {
    const objs: seq<T>
    var idx: int
    var obj: T

    ghost predicate Valid()
      reads this
    {
      |objs| > 1 && -1 <= idx < |objs| && (idx >= 0 ==> obj == objs[idx])
    }

    constructor (objs: seq<T>)
      requires |objs| > 1
      ensures Valid() && this.objs == objs && idx == 0
    {
      this.objs := objs;
      idx := 0;
      obj := objs[0];
    }

    /** `__setattr__` for the position: the current object follows while it is in range. */
    method SetIndex(i: int)
      requires -1 <= i <= |objs|
      modifies this
      ensures idx == i && obj == if 0 <= i < |objs| then objs[i] else old(obj)
    {
      idx := i;
      if 0 <= i < |objs| {
        obj := objs[i];
      }
    }

    /** `_next`: past the end it goes back to the first object and stops the iteration. */
    method Next() returns (stop: bool)
      requires Valid()
      modifies this
      ensures Valid() && stop == (old(idx) + 1 == |objs|)
      ensures idx == if stop then 0 else old(idx) + 1
    {
      SetIndex(idx + 1);
      stop := false;
      if idx == |objs| {
        SetIndex(0);
        stop := true;
      }
    }

    /** A whole iteration visits every object once, in order, wherever the cursor was, and
        leaves it at the first. */
    method Iterate() returns (visited: seq<T>)
      requires Valid()
      modifies this
      ensures Valid() && visited == objs && idx == 0
    {
      SetIndex(-1);
      visited := [];
      var stop := Next();
      while !stop
        invariant Valid() && idx == if stop then 0 else |visited|
        invariant visited == if stop then objs else objs[..|visited|]
        invariant |visited| <= |objs|
        decreases |objs| - |visited|, !stop
      {
        visited := visited + [obj];
        stop := Next();
      }
    }
  }

  // ---------------------------------------------------------------- the enumeration

  function PrependAll<T>(x: T, cs: seq<seq<T>>): (r: seq<seq<T>>)
    ensures |r| == |cs| && forall i :: 0 <= i < |cs| ==> r[i] == [x] + cs[i]
  {
    seq(|cs|, i requires 0 <= i < |cs| => [x] + cs[i])
  }

  /** `impl(cur, remain)` run to its end; nothing when generators nest deeper than `depth`. */
  function Enumerate<T>(cur: seq<T>, remain: Lists<T>, sub: T -> Lists<T>, depth: nat): Option<seq<seq<T>>>
    decreases depth, 1, |cur|
  {
    if cur == [] then Some([])
    else
      match (Starting(cur[0], remain, sub, depth), Enumerate(cur[1..], remain, sub, depth))
      case (Some(first), Some(rest)) => Some(first + rest)
      case _ => None
  }

  /** The combinations that start with `x`. */
  function Starting<T>(x: T, remain: Lists<T>, sub: T -> Lists<T>, depth: nat): Option<seq<seq<T>>>
    decreases depth, 0, 0
  {
    var left := remain + sub(x);
    if left == [] then Some([[x]])
    else if depth == 0 then None
    else
      match Enumerate(left[0], left[1..], sub, depth - 1)
      case Some(r) => Some(PrependAll(x, r))
      case None => None
  }

  /** `OptionIter`: looking up the first list fails when there is none. */
  datatype Outcome<T> = NoOptions | TooDeep | All(combinations: seq<seq<T>>)

  function OptionIter<T>(lists: Lists<T>, sub: T -> Lists<T>, depth: nat): Outcome<T> {
    if lists == [] then NoOptions
    else match Enumerate(lists[0], lists[1..], sub, depth) case Some(r) => All(r) case None => TooDeep
  }

  // ---------------------------------------------------------------- what a combination is

  /** What is still to be chosen after choosing `x` from the first list. */
  function Left<T>(lists: Lists<T>, x: T, sub: T -> Lists<T>): Lists<T>
    requires lists != []
  {
    lists[1..] + sub(x)
  }

  /** One element of each list in turn, until neither lists nor suboptions are left. */
  predicate IsChoice<T(==)>(lists: Lists<T>, c: seq<T>, sub: T -> Lists<T>)
    decreases |c|
  {
    if lists == [] then c == []
    else c != [] && c[0] in lists[0] && IsChoice(Left(lists, c[0], sub), c[1..], sub)
  }

  /** The lists that these choices bring, in order. */
  function Brought<T>(c: seq<T>, sub: T -> Lists<T>): Lists<T> {
    if c == [] then [] else sub(c[0]) + Brought(c[1..], sub)
  }

  /** The lists queue up: those there are, then those each choice brings. A combination chooses from
      each in turn, from one that is there already, until there are no more. */
  ghost predicate FollowsQueue<T(!new)>(lists: Lists<T>, c: seq<T>, sub: T -> Lists<T>) {
    |lists + Brought(c, sub)| == |c|
    && forall i :: 0 <= i < |c| ==>
         i < |lists + Brought(c[..i], sub)| && c[i] in (lists + Brought(c, sub))[i]
  }

  lemma {:induction false} ChoiceByQueue<T(!new)>(lists: Lists<T>, c: seq<T>, sub: T -> Lists<T>)
    ensures IsChoice(lists, c, sub) <==> FollowsQueue(lists, c, sub)
    decreases |c|
  {
    if lists != [] && c != [] {
      var left, rest := Left(lists, c[0], sub), c[1..];
      ChoiceByQueue(left, rest, sub);
      var queue := lists + Brought(c, sub);
      assert queue[1..] == left + Brought(rest, sub);
      forall i | 0 <= i < |rest|
        ensures |lists + Brought(c[..i + 1], sub)| == 1 + |left + Brought(rest[..i], sub)|
      {
        assert c[..i + 1][0] == c[0] && c[..i + 1][1..] == rest[..i];
      }
      if FollowsQueue(lists, c, sub) {
        assert |queue| == |c| && c[0] in queue[0];
        forall i | 0 <= i < |rest|
          ensures i < |left + Brought(rest[..i], sub)| && rest[i] in (left + Brought(rest, sub))[i]
        {
          assert c[i + 1] in queue[i + 1];
        }
      }
      if IsChoice(lists, c, sub) {
        assert FollowsQueue(left, rest, sub);
        forall i | 0 <= i < |c| ensures i < |lists + Brought(c[..i], sub)| && c[i] in queue[i] {
          if i > 0 {
            assert rest[i - 1] in (left + Brought(rest, sub))[i - 1];
            assert |lists + Brought(c[..i - 1 + 1], sub)| == 1 + |left + Brought(rest[..i - 1], sub)|;
          }
        }
      }
    } else if c != [] {
      assert c[..0] == [];
    }
  }

  /** Some choices made, and something is left to choose. */
  predicate IsUnfinished<T(==)>(lists: Lists<T>, c: seq<T>, sub: T -> Lists<T>)
    decreases |c|
  {
    lists != [] && (c == [] || (c[0] in lists[0] && IsUnfinished(Left(lists, c[0], sub), c[1..], sub)))
  }

  /** `a` comes before `b`: at the first difference, `a` has the earlier element of the list. */
  ghost predicate Before<T(!new)>(lists: Lists<T>, a: seq<T>, b: seq<T>, sub: T -> Lists<T>)
    decreases |a|
  {
    lists != [] && a != [] && b != []
    && if a[0] == b[0] then Before(Left(lists, a[0], sub), a[1..], b[1..], sub)
       else Earlier(lists[0], a[0], b[0])
  }

  ghost predicate Earlier<T(!new)>(s: seq<T>, x: T, y: T) {
    exists i, j :: 0 <= i < j < |s| && s[i] == x && s[j] == y
  }

  lemma {:induction false} NotBeforeItself<T(!new)>(lists: Lists<T>, a: seq<T>, sub: T -> Lists<T>)
    ensures !Before(lists, a, a, sub)
    decreases |a|
  {
    if lists != [] && a != [] {
      NotBeforeItself(Left(lists, a[0], sub), a[1..], sub);
    }
  }

  // ---------------------------------------------------------------- exactly the combinations

  lemma {:induction false} ChoiceHead<T(!new)>(cur: seq<T>, remain: Lists<T>, c: seq<T>, sub: T -> Lists<T>)
    ensures IsChoice([cur] + remain, c, sub) <==>
      c != [] && c[0] in cur && IsChoice(remain + sub(c[0]), c[1..], sub)
  {
    assert ([cur] + remain)[1..] == remain;
  }

  lemma {:induction false} StartingIsExact<T(!new)>(x: T, remain: Lists<T>, sub: T -> Lists<T>, depth: nat, c: seq<T>)
    requires Starting(x, remain, sub, depth).Some?
    ensures c in Starting(x, remain, sub, depth).value <==>
      c != [] && c[0] == x && IsChoice(remain + sub(x), c[1..], sub)
    decreases depth, 0, 0
  {
    var left := remain + sub(x);
    if left == [] {
      assert c == [x] <==> c != [] && c[0] == x && c[1..] == [];
    } else {
      var below := Enumerate(left[0], left[1..], sub, depth - 1).value;
      assert [left[0]] + left[1..] == left;
      if c != [] {
        EnumerationIsExact(left[0], left[1..], sub, depth - 1, c[1..]);
        InPrepended(x, below, c);
      }
    }
  }

  lemma {:induction false} InPrepended<T(!new)>(x: T, cs: seq<seq<T>>, c: seq<T>)
    requires c != []
    ensures c in PrependAll(x, cs) <==> c[0] == x && c[1..] in cs
  {
    var r := PrependAll(x, cs);
    if c in r {
      var i :| 0 <= i < |r| && r[i] == c;
      assert c[1..] == cs[i];
    }
    if c[0] == x && c[1..] in cs {
      var i :| 0 <= i < |cs| && cs[i] == c[1..];
      assert r[i] == [x] + c[1..] == c;
    }
  }

  /** The enumeration yields the combinations and nothing else. */
  lemma {:induction false} EnumerationIsExact<T(!new)>(cur: seq<T>, remain: Lists<T>, sub: T -> Lists<T>, depth: nat,
                                                       c: seq<T>)
    requires Enumerate(cur, remain, sub, depth).Some?
    ensures c in Enumerate(cur, remain, sub, depth).value <==> IsChoice([cur] + remain, c, sub)
    decreases depth, 1, |cur|
  {
    hide Starting, IsChoice;
    ChoiceHead(cur, remain, c, sub);
    if cur != [] {
      StartingIsExact(cur[0], remain, sub, depth, c);
      EnumerationIsExact(cur[1..], remain, sub, depth, c);
      ChoiceHead(cur[1..], remain, c, sub);
    }
  }

  // ---------------------------------------------------------------- in depth-first order

  /** No list, present or brought by a choice, repeats an element. */
  ghost predicate Plain<T(!new)>(lists: Lists<T>, sub: T -> Lists<T>) {
    (forall l :: l in lists ==> Distinct(l)) && forall x, l :: l in sub(x) ==> Distinct(l)
  }

  ghost predicate Ordered<T(!new)>(lists: Lists<T>, r: seq<seq<T>>, sub: T -> Lists<T>) {
    forall i, j :: 0 <= i < j < |r| ==> Before(lists, r[i], r[j], sub)
  }

  lemma {:induction false} StartingIsOrdered<T(!new)>(cur: seq<T>, x: T, remain: Lists<T>, sub: T -> Lists<T>, depth: nat)
    requires Starting(x, remain, sub, depth).Some? && Plain(remain, sub)
    ensures Ordered([cur] + remain, Starting(x, remain, sub, depth).value, sub)
    decreases depth, 0, 0
  {
    var left := remain + sub(x);
    if left != [] {
      var below := Enumerate(left[0], left[1..], sub, depth - 1).value;
      var r := PrependAll(x, below);
      assert [left[0]] + left[1..] == left;
      assert forall l :: l in left[1..] ==> l in left;
      EnumerationIsOrdered(left[0], left[1..], sub, depth - 1);
      assert Left([cur] + remain, x, sub) == left;
      forall i, j | 0 <= i < j < |r| ensures Before([cur] + remain, r[i], r[j], sub) {
        assert r[i][1..] == below[i] && r[j][1..] == below[j];
      }
    }
  }

  lemma {:induction false} BeforeInLonger<T(!new)>(x: T, cur: seq<T>, remain: Lists<T>, a: seq<T>, b: seq<T>, sub: T -> Lists<T>)
    requires Before([cur] + remain, a, b, sub)
    ensures Before([[x] + cur] + remain, a, b, sub)
  {
    var short, long := [cur] + remain, [[x] + cur] + remain;
    assert short[1..] == remain == long[1..];
    assert Left(short, a[0], sub) == Left(long, a[0], sub);
    if a[0] != b[0] {
      var i, j :| 0 <= i < j < |cur| && cur[i] == a[0] && cur[j] == b[0];
      assert ([x] + cur)[i + 1] == a[0] && ([x] + cur)[j + 1] == b[0];
    }
  }

  /** For lists without repetitions the combinations come in depth-first order. */
  lemma {:induction false} EnumerationIsOrdered<T(!new)>(cur: seq<T>, remain: Lists<T>, sub: T -> Lists<T>, depth: nat)
    requires Enumerate(cur, remain, sub, depth).Some? && Distinct(cur) && Plain(remain, sub)
    ensures Ordered([cur] + remain, Enumerate(cur, remain, sub, depth).value, sub)
    decreases depth, 1, |cur|
  {
    hide Starting, Before;
    if cur != [] {
      var first, rest := Starting(cur[0], remain, sub, depth).value, Enumerate(cur[1..], remain, sub, depth).value;
      StartingIsOrdered(cur, cur[0], remain, sub, depth);
      EnumerationIsOrdered(cur[1..], remain, sub, depth);
      var r := first + rest;
      forall i, j | 0 <= i < j < |r| ensures Before([cur] + remain, r[i], r[j], sub) {
        assert cur == [cur[0]] + cur[1..];
        if i < |first| <= j {
          FirstBeforeRest(cur, remain, sub, depth, r[i], r[j]);
        } else if |first| <= i {
          BeforeInLonger(cur[0], cur[1..], remain, rest[i - |first|], rest[j - |first|], sub);
        }
      }
    }
  }

  lemma {:induction false} FirstBeforeRest<T(!new)>(cur: seq<T>, remain: Lists<T>, sub: T -> Lists<T>, depth: nat,
                                                    a: seq<T>, b: seq<T>)
    requires cur != [] && Distinct(cur) && Enumerate(cur, remain, sub, depth).Some?
    requires a in Starting(cur[0], remain, sub, depth).value
    requires b in Enumerate(cur[1..], remain, sub, depth).value
    ensures Before([cur] + remain, a, b, sub)
  {
    StartingIsExact(cur[0], remain, sub, depth, a);
    EnumerationIsExact(cur[1..], remain, sub, depth, b);
    ChoiceHead(cur[1..], remain, b, sub);
    var j :| 0 <= j < |cur[1..]| && cur[1..][j] == b[0];
    assert cur[j + 1] == b[0] && a[0] == cur[0] != cur[j + 1];
    assert Earlier(cur, a[0], b[0]);
  }

  /** Every combination exactly once, in depth-first order. */
  lemma {:induction false} OptionsEnumerated<T(!new)>(lists: Lists<T>, sub: T -> Lists<T>, depth: nat)
    requires OptionIter(lists, sub, depth).All?
    ensures forall c :: c in OptionIter(lists, sub, depth).combinations <==> IsChoice(lists, c, sub)
    ensures Plain(lists, sub) ==> Ordered(lists, OptionIter(lists, sub, depth).combinations, sub)
    ensures Plain(lists, sub) ==> Distinct(OptionIter(lists, sub, depth).combinations)
  {
    hide Enumerate, IsChoice, Before;
    var r := OptionIter(lists, sub, depth).combinations;
    assert [lists[0]] + lists[1..] == lists;
    forall c ensures c in r <==> IsChoice(lists, c, sub) {
      EnumerationIsExact(lists[0], lists[1..], sub, depth, c);
    }
    if Plain(lists, sub) {
      assert forall l :: l in lists[1..] ==> l in lists;
      EnumerationIsOrdered(lists[0], lists[1..], sub, depth);
      forall i, j | 0 <= i < j < |r| ensures r[i] != r[j] {
        NotBeforeItself(lists, r[i], sub);
      }
    }
  }

  // ---------------------------------------------------------------- when it ends

  lemma {:induction false} UnfinishedHead<T(!new)>(cur: seq<T>, remain: Lists<T>, c: seq<T>, sub: T -> Lists<T>)
    requires c != []
    ensures IsUnfinished([cur] + remain, c, sub) <==>
      c[0] in cur && IsUnfinished(remain + sub(c[0]), c[1..], sub)
  {
    assert ([cur] + remain)[1..] == remain;
  }

  ghost predicate Stuck<T(!new)>(lists: Lists<T>, sub: T -> Lists<T>, n: nat) {
    exists c :: |c| == n && IsUnfinished(lists, c, sub)
  }

  lemma {:induction false} StuckStarting<T(!new)>(x: T, remain: Lists<T>, sub: T -> Lists<T>, depth: nat)
    ensures Starting(x, remain, sub, depth).None? <==> Stuck(remain + sub(x), sub, depth)
    decreases depth, 0, 0
  {
    var left := remain + sub(x);
    if left == [] {
      assert forall c :: !IsUnfinished(left, c, sub);
    } else if depth == 0 {
      assert IsUnfinished(left, [], sub);
    } else {
      assert [left[0]] + left[1..] == left;
      StuckEnumerating(left[0], left[1..], sub, depth - 1);
    }
  }

  /** Generators nest deeper than `depth` exactly when so many choices and one more can be made
      with something left to choose. */
  lemma {:induction false} StuckEnumerating<T(!new)>(cur: seq<T>, remain: Lists<T>, sub: T -> Lists<T>, depth: nat)
    ensures Enumerate(cur, remain, sub, depth).None? <==> Stuck([cur] + remain, sub, depth + 1)
    decreases depth, 1, |cur|
  {
    hide Starting, IsUnfinished;
    if Enumerate(cur, remain, sub, depth).None? {
      StuckStarting(cur[0], remain, sub, depth);
      StuckEnumerating(cur[1..], remain, sub, depth);
      if Starting(cur[0], remain, sub, depth).None? {
        var c :| |c| == depth && IsUnfinished(remain + sub(cur[0]), c, sub);
        assert ([cur[0]] + c)[1..] == c;
        UnfinishedHead(cur, remain, [cur[0]] + c, sub);
      } else {
        var c :| |c| == depth + 1 && IsUnfinished([cur[1..]] + remain, c, sub);
        UnfinishedHead(cur[1..], remain, c, sub);
        UnfinishedHead(cur, remain, c, sub);
      }
    }
    if Stuck([cur] + remain, sub, depth + 1) {
      var c :| |c| == depth + 1 && IsUnfinished([cur] + remain, c, sub);
      UnfinishedHead(cur, remain, c, sub);
      if c[0] == cur[0] {
        assert Stuck(remain + sub(cur[0]), sub, depth);
        StuckStarting(cur[0], remain, sub, depth);
      } else {
        UnfinishedHead(cur[1..], remain, c, sub);
        assert Stuck([cur[1..]] + remain, sub, depth + 1);
        StuckEnumerating(cur[1..], remain, sub, depth);
      }
    }
  }

  // ---------------------------------------------------------------- without suboptions

  function NoSuboptions<T>(): T -> Lists<T> {
    x => []
  }

  function Product<T>(lists: Lists<T>): nat {
    if lists == [] then 1 else |lists[0]| * Product(lists[1..])
  }

  lemma {:induction false} TuplesOnly<T(!new)>(lists: Lists<T>, c: seq<T>)
    ensures IsChoice(lists, c, NoSuboptions()) <==>
      |c| == |lists| && forall i :: 0 <= i < |c| ==> c[i] in lists[i]
    decreases |c|
  {
    if lists != [] && c != [] {
      assert Left(lists, c[0], NoSuboptions()) == lists[1..];
      TuplesOnly(lists[1..], c[1..]);
      if |c| == |lists| && c[0] in lists[0] && forall i :: 0 <= i < |c| - 1 ==> c[1..][i] in lists[1..][i] {
        forall i | 0 <= i < |c| ensures c[i] in lists[i] {
          if i > 0 {
            assert c[1..][i - 1] in lists[1..][i - 1];
          }
        }
      }
    }
  }

  lemma {:induction false} StartingCounted<T(!new)>(x: T, remain: Lists<T>, depth: nat)
    requires |remain| <= depth
    ensures Starting(x, remain, NoSuboptions(), depth).Some?
    ensures |Starting(x, remain, NoSuboptions(), depth).value| == Product(remain)
    decreases depth, 0, 0
  {
    hide Enumerate;
    var none: T -> Lists<T> := NoSuboptions();
    assert remain + none(x) == remain;
    if remain != [] {
      EnumerationCounted(remain[0], remain[1..], depth - 1);
    }
  }

  lemma {:induction false} EnumerationCounted<T(!new)>(cur: seq<T>, remain: Lists<T>, depth: nat)
    requires |remain| <= depth
    ensures Enumerate(cur, remain, NoSuboptions(), depth).Some?
    ensures |Enumerate(cur, remain, NoSuboptions(), depth).value| == |cur| * Product(remain)
    decreases depth, 1, |cur|
  {
    hide Starting, Product;
    if cur != [] {
      StartingCounted(cur[0], remain, depth);
      EnumerationCounted(cur[1..], remain, depth);
      OneMore(|cur[1..]|, Product(remain));
    }
  }

  lemma {:induction false} OneMore(n: nat, m: nat)
    ensures (n + 1) * m == m + n * m
  {
  }

  /** Without suboptions the enumeration ends and is the Cartesian product: the tuples with one
      element of each list, as many as the product of the lengths. */
  lemma {:induction false} CartesianProduct<T(!new)>(lists: Lists<T>)
    requires lists != []
    ensures var all := OptionIter(lists, NoSuboptions(), |lists|);
      all.All? && |all.combinations| == Product(lists)
      && forall c :: c in all.combinations <==>
        |c| == |lists| && forall i :: 0 <= i < |c| ==> c[i] in lists[i]
  {
    hide IsChoice, Enumerate;
    EnumerationCounted(lists[0], lists[1..], |lists|);
    OptionsEnumerated(lists, NoSuboptions(), |lists|);
    forall c ensures IsChoice(lists, c, NoSuboptions()) <==>
      |c| == |lists| && forall i :: 0 <= i < |c| ==> c[i] in lists[i]
    {
      TuplesOnly(lists, c);
    }
  }
}
