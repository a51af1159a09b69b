/** Sequence operations shared by the models: filtering, mapping, reversing, and the
    stable sort that Python's `sort` and `sorted` promise. */
module Sequences {
  datatype Option<+T> = None | Some(value: T)

  function Filter<T>(s: seq<T>, p: T -> bool): (r: seq<T>)
    ensures |r| <= |s|
    ensures forall x :: x in r ==> x in s && p(x)
    ensures forall x :: x in s && p(x) ==> x in r
  {
    if s == [] then []
    else if p(s[0]) then [s[0]] + Filter(s[1..], p)
    else Filter(s[1..], p)
  }

  function Map<T, U>(s: seq<T>, f: T -> U): (r: seq<U>)
    ensures |r| == |s|
    ensures forall i :: 0 <= i < |s| ==> r[i] == f(s[i])
  {
    seq(|s|, i requires 0 <= i < |s| => f(s[i]))
  }

  function Reverse<T>(s: seq<T>): (r: seq<T>)
    ensures |r| == |s|
    ensures forall i :: 0 <= i < |s| ==> r[i] == s[|s| - 1 - i]
  {
    seq(|s|, i requires 0 <= i < |s| => s[|s| - 1 - i])
  }

  ghost predicate Distinct<T(!new)>(s: seq<T>) {
    forall i, j :: 0 <= i < j < |s| ==> s[i] != s[j]
  }

  lemma {:induction false} FilterConcat<T>(s: seq<T>, t: seq<T>, p: T -> bool)
    ensures Filter(s + t, p) == Filter(s, p) + Filter(t, p)
  {
    if s == [] {
      assert s + t == t;
    } else {
      assert (s + t)[0] == s[0] && (s + t)[1..] == s[1..] + t;
      FilterConcat(s[1..], t, p);
    }
  }

  lemma {:induction false} FilterSnoc<T>(s: seq<T>, x: T, p: T -> bool)
    ensures Filter(s + [x], p) == Filter(s, p) + (if p(x) then [x] else [])
  {
    FilterConcat(s, [x], p);
    assert [x][1..] == [];
  }

  lemma {:induction false} FilterAll<T>(s: seq<T>, p: T -> bool)
    requires forall x :: x in s ==> p(x)
    ensures Filter(s, p) == s
  {
    if s != [] {
      FilterAll(s[1..], p);
    }
  }

  lemma {:induction false} FilterNone<T>(s: seq<T>, p: T -> bool)
    requires forall x :: x in s ==> !p(x)
    ensures Filter(s, p) == []
  {
    if s != [] {
      FilterNone(s[1..], p);
    }
  }

  lemma {:induction false} FilterDistinct<T(!new)>(s: seq<T>, p: T -> bool)
    requires Distinct(s)
    ensures Distinct(Filter(s, p))
  {
    if s != [] {
      FilterDistinct(s[1..], p);
    }
  }

  /** Two predicates that agree on the elements select the same subsequence. */
  lemma {:induction false} FilterAgree<T>(s: seq<T>, p: T -> bool, q: T -> bool)
    requires forall x :: x in s ==> p(x) == q(x)
    ensures Filter(s, p) == Filter(s, q)
  {
    if s != [] {
      FilterAgree(s[1..], p, q);
    }
  }

  // ---------------------------------------------------------------- counting

  function One(b: bool): nat {
    if b then 1 else 0
  }

  /** How many elements are selected. */
  function Count<T>(s: seq<T>, p: T -> bool): nat {
    if s == [] then 0 else One(p(s[0])) + Count(s[1..], p)
  }

  lemma {:induction false} CountConcat<T>(s: seq<T>, t: seq<T>, p: T -> bool)
    ensures Count(s + t, p) == Count(s, p) + Count(t, p)
  {
    if s == [] {
      assert s + t == t;
    } else {
      assert (s + t)[0] == s[0] && (s + t)[1..] == s[1..] + t;
      CountConcat(s[1..], t, p);
    }
  }

  lemma {:induction false} CountOne<T>(x: T, p: T -> bool)
    ensures Count([x], p) == One(p(x))
  {
    assert [x][1..] == [];
  }

  lemma {:induction false} CountEvery<T>(s: seq<T>, p: T -> bool)
    requires forall x :: x in s ==> p(x)
    ensures Count(s, p) == |s|
  {
    if s != [] {
      CountEvery(s[1..], p);
    }
  }

  /** Replacing one element changes the count by that element only. */
  lemma {:induction false} CountReplace<T>(s: seq<T>, i: nat, x: T, p: T -> bool)
    requires i < |s|
    ensures Count(s[i := x], p) + One(p(s[i])) == Count(s, p) + One(p(x))
  {
    if i == 0 {
      assert s[i := x][1..] == s[1..];
    } else {
      assert s[i := x][1..] == s[1..][i - 1 := x];
      CountReplace(s[1..], i - 1, x, p);
    }
  }

  /** How many elements of all these sequences are selected. */
  function CountIn<T>(ss: seq<seq<T>>, p: T -> bool): nat {
    if ss == [] then 0 else Count(ss[0], p) + CountIn(ss[1..], p)
  }

  lemma {:induction false} CountUpdate<T>(ss: seq<seq<T>>, i: nat, s: seq<T>, p: T -> bool)
    requires i < |ss|
    ensures CountIn(ss[i := s], p) + Count(ss[i], p) == CountIn(ss, p) + Count(s, p)
  {
    if i == 0 {
      assert ss[i := s][1..] == ss[1..];
    } else {
      assert ss[i := s][1..] == ss[1..][i - 1 := s];
      CountUpdate(ss[1..], i - 1, s, p);
    }
  }

  lemma {:induction false} CountNone<T>(ss: seq<seq<T>>, p: T -> bool)
    requires forall i :: 0 <= i < |ss| ==> ss[i] == []
    ensures CountIn(ss, p) == 0
  {
    if ss != [] {
      CountNone(ss[1..], p);
    }
  }

  /** A sequence without repetitions is no longer than a set that holds all its elements. */
  lemma {:induction false} DistinctBound<T(!new)>(s: seq<T>, within: set<T>)
    requires Distinct(s)
    requires forall x :: x in s ==> x in within
    ensures |s| <= |within|
  {
    if s != [] {
      var rest := within - {s[0]};
      forall x | x in s[1..] ensures x in rest {
        var i :| 0 <= i < |s[1..]| && s[1..][i] == x;
        assert s[i + 1] == x && s[0] != s[i + 1];
      }
      DistinctBound(s[1..], rest);
      assert |rest| == |within| - 1;
    }
  }

  lemma {:induction false} SetOfSeqBound<T(!new)>(s: seq<T>)
    ensures |set x | x in s| <= |s|
  {
    if s == [] {
      assert (set x | x in s) == {};
    } else {
      SetOfSeqBound(s[1..]);
      assert (set x | x in s) == {s[0]} + (set x | x in s[1..]);
    }
  }
}

/** The stable ascending sort: Python's `list.sort(key=…)` and `sorted(…, key=…)`. */
module StableSorting {
  import opened Sequences

  ghost predicate SortedBy<T(!new)>(s: seq<T>, key: T -> int) {
    forall i, j :: 0 <= i < j < |s| ==> key(s[i]) <= key(s[j])
  }

  /** The elements of `s` whose key is `k`, in the order they have in `s`. */
  ghost function Class<T>(s: seq<T>, key: T -> int, k: int): (r: seq<T>)
    ensures forall x :: x in r ==> x in s && key(x) == k
    ensures forall x :: x in s && key(x) == k ==> x in r
  {
    if s == [] then []
    else if key(s[0]) == k then [s[0]] + Class(s[1..], key, k)
    else Class(s[1..], key, k)
  }

  /** `r` is what a stable ascending sort of `s` returns. */
  ghost predicate IsStableSort<T(!new)>(s: seq<T>, key: T -> int, r: seq<T>) {
    SortedBy(r, key) && forall k :: Class(r, key, k) == Class(s, key, k)
  }

  function Insert<T>(x: T, s: seq<T>, key: T -> int): (r: seq<T>)
    ensures multiset(r) == multiset{x} + multiset(s)
  {
    if s == [] || key(x) <= key(s[0]) then [x] + s
    else
      var r := [s[0]] + Insert(x, s[1..], key);
      assert s == [s[0]] + s[1..];
      r
  }

  function Sort<T>(s: seq<T>, key: T -> int): (r: seq<T>)
    ensures multiset(r) == multiset(s)
  {
    if s == [] then []
    else
      assert s == [s[0]] + s[1..];
      Insert(s[0], Sort(s[1..], key), key)
  }

  lemma {:induction false} InsertSorted<T(!new)>(x: T, s: seq<T>, key: T -> int)
    requires SortedBy(s, key)
    ensures SortedBy(Insert(x, s, key), key)
  {
    if s != [] && key(x) > key(s[0]) {
      InsertSorted(x, s[1..], key);
      var tail := Insert(x, s[1..], key);
      forall j | 0 <= j < |tail| ensures key(s[0]) <= key(tail[j]) {
        assert tail[j] in multiset(tail);
        assert tail[j] == x || tail[j] in s[1..];
      }
    }
  }

  lemma {:induction false} ClassNone<T>(s: seq<T>, key: T -> int, k: int)
    requires forall x :: x in s ==> key(x) != k
    ensures Class(s, key, k) == []
  {
    if s != [] {
      ClassNone(s[1..], key, k);
    }
  }

  lemma {:induction false} ClassCons<T>(x: T, s: seq<T>, key: T -> int, k: int)
    ensures Class([x] + s, key, k) == if key(x) == k then [x] + Class(s, key, k) else Class(s, key, k)
  {
    assert ([x] + s)[1..] == s;
  }

  lemma {:induction false} InsertClass<T>(x: T, s: seq<T>, key: T -> int, k: int)
    ensures Class(Insert(x, s, key), key, k) == Class([x] + s, key, k)
  {
    ClassCons(x, s, key, k);
    if s != [] && key(x) > key(s[0]) {
      InsertClass(x, s[1..], key, k);
      ClassCons(s[0], Insert(x, s[1..], key), key, k);
      ClassCons(x, s[1..], key, k);
    }
  }

  lemma {:induction false} SortIsStable<T(!new)>(s: seq<T>, key: T -> int)
    ensures IsStableSort(s, key, Sort(s, key))
  {
    if s != [] {
      var tail := Sort(s[1..], key);
      SortIsStable(s[1..], key);
      InsertSorted(s[0], tail, key);
      forall k ensures Class(Sort(s, key), key, k) == Class(s, key, k) {
        InsertClass(s[0], tail, key, k);
        ClassCons(s[0], tail, key, k);
      }
    }
  }

  lemma {:induction false} SameHead<T(!new)>(a: seq<T>, b: seq<T>, key: T -> int)
    requires SortedBy(a, key) && SortedBy(b, key)
    requires forall k :: Class(a, key, k) == Class(b, key, k)
    requires a != []
    ensures b != [] && a[0] == b[0]
  {
    var k := key(a[0]);
    assert a[0] in Class(a, key, k);
    assert a[0] in Class(b, key, k);
    assert b[0] in Class(b, key, key(b[0]));
    assert b[0] in Class(a, key, key(b[0]));
    assert b[0] in a && a[0] in b;
    assert key(b[0]) == k;
    assert Class(a, key, k)[0] == a[0] && Class(b, key, k)[0] == b[0];
  }

  lemma {:induction false} SameTailClass<T>(a: seq<T>, b: seq<T>, key: T -> int, k: int)
    requires a != [] && b != [] && a[0] == b[0] && Class(a, key, k) == Class(b, key, k)
    ensures Class(a[1..], key, k) == Class(b[1..], key, k)
  {
    if key(a[0]) == k {
      assert Class(a, key, k)[1..] == Class(a[1..], key, k);
      assert Class(b, key, k)[1..] == Class(b[1..], key, k);
    }
  }

  lemma {:induction false} SameClassesSameSeq<T(!new)>(a: seq<T>, b: seq<T>, key: T -> int)
    requires SortedBy(a, key) && SortedBy(b, key)
    requires forall k :: Class(a, key, k) == Class(b, key, k)
    ensures a == b
    decreases |a|
  {
    if a != [] {
      SameHead(a, b, key);
      forall k ensures Class(a[1..], key, k) == Class(b[1..], key, k) {
        SameTailClass(a, b, key, k);
      }
      SameClassesSameSeq(a[1..], b[1..], key);
    } else if b != [] {
      SameHead(b, a, key);
    }
  }

  /** A stable ascending sort is determined by its promise: nothing else satisfies it. */
  lemma {:induction false} StableSortUnique<T(!new)>(s: seq<T>, key: T -> int, r: seq<T>)
    requires IsStableSort(s, key, r)
    ensures r == Sort(s, key)
  {
    SortIsStable(s, key);
    forall k ensures Class(r, key, k) == Class(Sort(s, key), key, k) {
      assert Class(r, key, k) == Class(s, key, k);
    }
    SameClassesSameSeq(r, Sort(s, key), key);
  }
}
