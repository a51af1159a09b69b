/** `_instantiate_impl`: build a C++ object from keyword arguments when the constructor's
    signature cannot be asked for. First drop the keywords the constructor names as
    unexpected; if that gets stuck, try every subset of the keywords, largest first. */
module ConstructorSearch {
  import opened Sequences

  /** What calling the constructor with a set of keyword arguments does. `Unexpected` and
      `Incompatible` are TypeErrors, with and without a keyword named in the message; `Crash`
      is any other exception. */
  datatype Reply = Built | Unexpected(name: string) | Incompatible | Crash(tag: int)

  type Constructor = set<string> -> Reply

  datatype Result = Object(kept: set<string>) | Crashed(tag: int) | Refused(last: Reply)

  predicate Rejects(ctor: Constructor, s: set<string>) {
    ctor(s).Unexpected? || ctor(s).Incompatible?
  }

  function Names(s: seq<string>): set<string> {
    set k | k in s
  }

  /** What an accepted or crashed call ends the search with. */
  function Ending(ctor: Constructor, s: set<string>): Result {
    match ctor(s)
    case Built => Object(s)
    case Crash(t) => Crashed(t)
    case r => Refused(r)
  }

  // ---------------------------------------------------------------- dropping named keywords

  function OtherThan(name: string): string -> bool {
    k => k != name
  }

  function Without(keys: seq<string>, name: string): seq<string> {
    Filter(keys, OtherThan(name))
  }

  lemma {:induction false} WithoutShorter(keys: seq<string>, name: string)
    requires name in keys
    ensures |Without(keys, name)| < |keys|
  {
    if name in keys[1..] {
      WithoutShorter(keys[1..], name);
    }
  }

  /** The `while True` loop: the keywords left when it stops. */
  function Pruned(keys: seq<string>, ctor: Constructor): seq<string>
    decreases |keys|
  {
    match ctor(Names(keys))
    case Unexpected(name) =>
      if name in keys then
        WithoutShorter(keys, name);
        Pruned(Without(keys, name), ctor)
      else keys
    case _ => keys
  }

  // ---------------------------------------------------------------- itertools.combinations

  function Prepend(x: string, cs: seq<seq<string>>): (r: seq<seq<string>>)
    ensures |r| == |cs| && forall i :: 0 <= i < |r| ==> r[i] == [x] + cs[i]
  {
    Map(cs, (c: seq<string>) => [x] + c)
  }

  /** All subsequences of the given size, in the order of `itertools.combinations`. */
  function Combinations(keys: seq<string>, size: nat): seq<seq<string>> {
    if size == 0 then [[]]
    else if keys == [] then []
    else Prepend(keys[0], Combinations(keys[1..], size - 1)) + Combinations(keys[1..], size)
  }

  /** The subsets tried from the largest size down to `size`. */
  function Candidates(keys: seq<string>, size: nat): seq<seq<string>>
    requires size <= |keys| + 1
    decreases |keys| + 1 - size
  {
    if size == |keys| + 1 then [] else Candidates(keys, size + 1) + Combinations(keys, size)
  }

  /** The first `n` of the subsets are all rejected. */
  predicate RejectsFirst(ctor: Constructor, cs: seq<seq<string>>, n: nat)
    requires n <= |cs|
  {
    forall j :: 0 <= j < n ==> Rejects(ctor, Names(cs[j]))
  }

  /** The position of the first candidate that is not rejected, or the length. */
  function FirstNotRejected(cs: seq<seq<string>>, ctor: Constructor): (i: nat)
    ensures i <= |cs| && RejectsFirst(ctor, cs, i)
    ensures i < |cs| ==> !Rejects(ctor, Names(cs[i]))
  {
    if cs == [] || !Rejects(ctor, Names(cs[0])) then 0 else 1 + FirstNotRejected(cs[1..], ctor)
  }

  /** The subset phase. */
  function Searched(keys: seq<string>, ctor: Constructor): Result {
    var cs := Candidates(keys, 0);
    var i := FirstNotRejected(cs, ctor);
    if i < |cs| then Ending(ctor, Names(cs[i]))
    else if cs == [] then Refused(Incompatible)
    else Refused(ctor(Names(cs[|cs| - 1])))
  }

  function Instantiated(keys: seq<string>, ctor: Constructor): Result {
    var left := Names(Pruned(keys, ctor));
    if Rejects(ctor, left) then Searched(keys, ctor) else Ending(ctor, left)
  }

  lemma {:induction false} FirstIs(cs: seq<seq<string>>, ctor: Constructor, i: nat)
    requires i <= |cs| && RejectsFirst(ctor, cs, i)
    requires i < |cs| ==> !Rejects(ctor, Names(cs[i]))
    ensures FirstNotRejected(cs, ctor) == i
  {
    assert i <= FirstNotRejected(cs, ctor);
  }

  method Prune(keys: seq<string>, ctor: Constructor) returns (candidate: seq<string>)
    ensures candidate == Pruned(keys, ctor)
  {
    candidate := keys;
    while true
      invariant Pruned(keys, ctor) == Pruned(candidate, ctor)
      decreases |candidate|
    {
      var reply := ctor(Names(candidate));
      if !reply.Unexpected? || reply.name !in candidate {
        return;
      }
      WithoutShorter(candidate, reply.name);
      candidate := Without(candidate, reply.name);
    }
  }

  /** What the last of the first `n` attempts was rejected with. */
  function LastReply(ctor: Constructor, cs: seq<seq<string>>, n: nat): Reply
    requires n <= |cs|
  {
    if n == 0 then Incompatible else ctor(Names(cs[n - 1]))
  }

  /** The inner loop, over the subsets of one size; `earlier` are the ones tried before. */
  method TrySubsets(ghost earlier: seq<seq<string>>, subsets: seq<seq<string>>, ctor: Constructor, before: Reply)
    returns (stopped: bool, r: Result, tried: nat, lastExc: Reply)
    requires RejectsFirst(ctor, earlier, |earlier|) && before == LastReply(ctor, earlier, |earlier|)
    ensures tried <= |subsets|
    ensures !stopped ==> tried == |subsets| && RejectsFirst(ctor, earlier + subsets, |earlier| + tried)
    ensures !stopped ==> lastExc == LastReply(ctor, earlier + subsets, |earlier| + tried)
    ensures stopped ==> tried > 0 && RejectsFirst(ctor, earlier + subsets, |earlier| + tried - 1)
    ensures stopped ==> !Rejects(ctor, Names(subsets[tried - 1])) && r == Ending(ctor, Names(subsets[tried - 1]))
  {
    stopped, r, tried, lastExc := false, Refused(Incompatible), 0, before;
    ghost var all := earlier + subsets;
    while tried < |subsets|
      invariant tried <= |subsets| && RejectsFirst(ctor, all, |earlier| + tried)
      invariant lastExc == LastReply(ctor, all, |earlier| + tried)
    {
      var reply := ctor(Names(subsets[tried]));
      assert all[|earlier| + tried] == subsets[tried];
      tried := tried + 1;
      if !reply.Unexpected? && !reply.Incompatible? {
        return true, Ending(ctor, Names(subsets[tried - 1])), tried, lastExc;
      }
      lastExc := reply;
    }
  }

  method Search(keys: seq<string>, ctor: Constructor) returns (r: Result, attempts: nat)
    ensures r == Searched(keys, ctor)
    ensures attempts <= |Candidates(keys, 0)|
  {
    hide Combinations, Rejects, Ending;
    var lastExc := Incompatible;
    attempts := 0;
    var size: int := |keys|;
    while size >= 0
      invariant -1 <= size <= |keys| && attempts == |Candidates(keys, size + 1)|
      invariant RejectsFirst(ctor, Candidates(keys, size + 1), attempts)
      invariant lastExc == LastReply(ctor, Candidates(keys, size + 1), attempts)
    {
      ghost var earlier := Candidates(keys, size + 1);
      var subsets := Combinations(keys, size);
      assert Candidates(keys, size) == earlier + subsets;
      var stopped, ending, tried, last := TrySubsets(earlier, subsets, ctor, lastExc);
      attempts := attempts + tried;
      if stopped {
        StopsEarly(keys, ctor, size, attempts - 1);
        return ending, attempts;
      }
      lastExc := last;
      size := size - 1;
    }
    FirstIs(Candidates(keys, 0), ctor, attempts);
    return Refused(lastExc), attempts;
  }

  lemma {:induction false} CandidatesExtend(keys: seq<string>, size: nat)
    requires size <= |keys| + 1
    ensures Candidates(keys, size) <= Candidates(keys, 0)
    decreases size
  {
    hide Combinations;
    if size > 0 {
      assert Candidates(keys, size - 1) == Candidates(keys, size) + Combinations(keys, size - 1);
      CandidatesExtend(keys, size - 1);
    }
  }

  lemma {:induction false} StopsEarly(keys: seq<string>, ctor: Constructor, size: nat, i: nat)
    requires size <= |keys| && i < |Candidates(keys, size)|
    requires RejectsFirst(ctor, Candidates(keys, size), i)
    requires !Rejects(ctor, Names(Candidates(keys, size)[i]))
    ensures Searched(keys, ctor) == Ending(ctor, Names(Candidates(keys, size)[i]))
    ensures i < |Candidates(keys, 0)|
  {
    hide Candidates, Rejects;
    var cs, all := Candidates(keys, size), Candidates(keys, 0);
    CandidatesExtend(keys, size);
    assert forall j :: 0 <= j < |cs| ==> cs[j] == all[j];
    FirstIs(all, ctor, i);
  }

  method Instantiate(keys: seq<string>, ctor: Constructor) returns (r: Result)
    ensures r == Instantiated(keys, ctor)
  {
    var candidate := Prune(keys, ctor);
    var reply := ctor(Names(candidate));
    if !reply.Unexpected? && !reply.Incompatible? {
      return Ending(ctor, Names(candidate));
    }
    var attempts;
    r, attempts := Search(keys, ctor);
  }

  // ---------------------------------------------------------------- what is enumerated

  /** A selection of the given number of different keywords. */
  ghost predicate Selects(c: seq<string>, keys: seq<string>, size: nat) {
    |c| == size && Distinct(c) && Names(c) <= Names(keys)
  }

  lemma {:induction false} SelectMore(keys: seq<string>, d: seq<string>, size: nat)
    requires Distinct(keys) && keys != [] && Selects(d, keys[1..], size)
    ensures Selects([keys[0]] + d, keys, size + 1)
  {
    HeadApart(keys);
    assert forall k :: k in d ==> k in Names(d);
  }

  lemma {:induction false} CombinationsSound(keys: seq<string>, size: nat)
    requires Distinct(keys)
    ensures forall c :: c in Combinations(keys, size) ==> Selects(c, keys, size)
  {
    if size > 0 && keys != [] {
      hide Selects;
      var x, rest := keys[0], keys[1..];
      var with, without := Combinations(rest, size - 1), Combinations(rest, size);
      CombinationsSound(rest, size - 1);
      CombinationsSound(rest, size);
      forall c | c in Combinations(keys, size) ensures Selects(c, keys, size) {
        if c in without {
          SelectFromRest(keys, c, size);
        } else {
          var i :| 0 <= i < |with| && Prepend(x, with)[i] == c;
          assert with[i] in with;
          SelectMore(keys, with[i], size - 1);
        }
      }
    }
  }

  lemma {:induction false} SelectFromRest(keys: seq<string>, c: seq<string>, size: nat)
    requires Distinct(keys) && keys != [] && Selects(c, keys[1..], size)
    ensures Selects(c, keys, size)
  {
    HeadApart(keys);
  }

  lemma {:induction false} HeadApart(keys: seq<string>)
    requires Distinct(keys) && keys != []
    ensures keys[0] !in keys[1..] && Distinct(keys[1..]) && Names(keys) == {keys[0]} + Names(keys[1..])
  {
    forall k | k in keys[1..] ensures k != keys[0] {
      var j :| 0 <= j < |keys[1..]| && keys[1..][j] == k;
      assert keys[j + 1] == k;
    }
  }

  lemma {:induction false} NamesSize(s: seq<string>)
    requires Distinct(s)
    ensures |Names(s)| == |s|
  {
    if s == [] {
      assert Names(s) == {};
    } else {
      HeadApart(s);
      NamesSize(s[1..]);
    }
  }

  /** This subset is enumerated under its size. */
  ghost predicate Enumerated(keys: seq<string>, s: set<string>) {
    exists c :: c in Combinations(keys, |s|) && Names(c) == s
  }

  lemma {:induction false} EnumeratedWith(x: string, rest: seq<string>, s: set<string>)
    requires x in s && Enumerated(rest, s - {x})
    ensures Enumerated([x] + rest, s)
  {
    var n := |s - {x}|;
    assert |s| == n + 1;
    var d :| d in Combinations(rest, n) && Names(d) == s - {x};
    var i :| 0 <= i < |Combinations(rest, n)| && Combinations(rest, n)[i] == d;
    assert Prepend(x, Combinations(rest, n))[i] == [x] + d;
    assert ([x] + rest)[1..] == rest;
    assert [x] + d in Combinations([x] + rest, n + 1);
    forall k ensures k in [x] + d <==> k in s {
      assert k in [x] + d <==> k == x || k in Names(d);
    }
  }

  lemma {:induction false} EnumeratedSkipping(x: string, rest: seq<string>, s: set<string>)
    requires Enumerated(rest, s)
    ensures Enumerated([x] + rest, s)
  {
    var d :| d in Combinations(rest, |s|) && Names(d) == s;
    assert ([x] + rest)[1..] == rest;
    if |s| > 0 {
      assert d in Combinations([x] + rest, |s|);
    }
  }

  /** Every subset of the keywords is enumerated. */
  lemma {:induction false} CombinationsComplete(keys: seq<string>, s: set<string>)
    requires Distinct(keys) && s <= Names(keys)
    ensures Enumerated(keys, s)
  {
    if keys == [] {
      assert s == {} && [] in Combinations(keys, 0) && Names([]) == s;
    } else {
      HeadApart(keys);
      var x, rest := keys[0], keys[1..];
      hide Combinations;
      assert keys == [x] + rest;
      if x in s {
        CombinationsComplete(rest, s - {x});
        EnumeratedWith(x, rest, s);
      } else {
        CombinationsComplete(rest, s);
        EnumeratedSkipping(x, rest, s);
      }
    }
  }

  /** A subset of the keywords, without repetitions, of at least the given size. */
  ghost predicate Sized(c: seq<string>, keys: seq<string>, size: nat) {
    |c| >= size && Distinct(c) && Names(c) <= Names(keys)
  }

  lemma {:induction false} CandidatesHold(keys: seq<string>, size: nat)
    requires Distinct(keys) && size <= |keys| + 1
    ensures forall c :: c in Candidates(keys, size) ==> Sized(c, keys, size)
    decreases |keys| + 1 - size
  {
    hide Combinations;
    if size <= |keys| {
      CandidatesHold(keys, size + 1);
      CombinationsSound(keys, size);
      forall c | c in Candidates(keys, size) ensures Sized(c, keys, size) {
        assert c in Candidates(keys, size + 1) || c in Combinations(keys, size);
        assert c in Candidates(keys, size + 1) ==> Sized(c, keys, size + 1);
      }
    }
  }

  /** A larger subset comes before a smaller one. */
  lemma {:induction false} LargerFirst(keys: seq<string>, size: nat, i: nat, j: nat)
    requires Distinct(keys) && size <= |keys| + 1 && i < j < |Candidates(keys, size)|
    ensures |Candidates(keys, size)[i]| >= |Candidates(keys, size)[j]|
    decreases |keys| + 1 - size
  {
    hide Combinations, Names, Distinct;
    var earlier, last := Candidates(keys, size + 1), Combinations(keys, size);
    assert Candidates(keys, size) == earlier + last;
    CandidatesHold(keys, size + 1);
    CombinationsSound(keys, size);
    if j < |earlier| {
      LargerFirst(keys, size + 1, i, j);
    } else {
      assert last[j - |earlier|] in last;
      if i < |earlier| {
        assert earlier[i] in earlier && Sized(earlier[i], keys, size + 1);
      } else {
        assert last[i - |earlier|] in last;
      }
    }
  }

  lemma {:induction false} CandidateOf(keys: seq<string>, s: set<string>) returns (i: nat)
    requires Distinct(keys) && s <= Names(keys)
    ensures i < |Candidates(keys, 0)| && Names(Candidates(keys, 0)[i]) == s
  {
    hide Combinations;
    NamesSize(keys);
    SubsetSize(s, Names(keys));
    CombinationsComplete(keys, s);
    var c :| c in Combinations(keys, |s|) && Names(c) == s;
    CandidatesExtend(keys, |s|);
    assert Candidates(keys, |s|) == Candidates(keys, |s| + 1) + Combinations(keys, |s|);
    assert c in Candidates(keys, |s|);
    i :| 0 <= i < |Candidates(keys, |s|)| && Candidates(keys, |s|)[i] == c;
  }

  lemma {:induction false} SubsetSize(a: set<string>, b: set<string>)
    requires a <= b
    ensures |a| <= |b|
  {
    assert b == a + (b - a);
  }

  // ---------------------------------------------------------------- how many attempts

  function Power2(n: nat): nat {
    if n == 0 then 1 else 2 * Power2(n - 1)
  }

  function Choose(n: nat, k: nat): nat {
    if k == 0 then 1 else if n == 0 then 0 else Choose(n - 1, k - 1) + Choose(n - 1, k)
  }

  /** The binomial coefficients from `k` up to `n`, added up. */
  function ChooseFrom(n: nat, k: nat): nat
    requires k <= n + 1
    decreases n + 1 - k
  {
    if k == n + 1 then 0 else ChooseFrom(n, k + 1) + Choose(n, k)
  }

  lemma {:induction false} ChooseNone(n: nat, k: nat)
    requires k > n
    ensures Choose(n, k) == 0
  {
    if n > 0 {
      ChooseNone(n - 1, k - 1);
      ChooseNone(n - 1, k);
    }
  }

  lemma {:induction false} Pascal(n: nat, k: nat)
    requires 0 < k <= n + 1
    ensures ChooseFrom(n + 1, k) == ChooseFrom(n, k - 1) + ChooseFrom(n, k)
    decreases n + 1 - k
  {
    if k <= n {
      Pascal(n, k + 1);
    } else {
      ChooseNone(n, n + 1);
      assert ChooseFrom(n + 1, n + 2) == 0;
      assert ChooseFrom(n, n + 1) == 0;
    }
  }

  lemma {:induction false} ChooseAll(n: nat)
    ensures ChooseFrom(n, 0) == Power2(n)
  {
    if n == 0 {
      assert ChooseFrom(0, 1) == 0;
    } else {
      ChooseAll(n - 1);
      Pascal(n - 1, 1);
      assert ChooseFrom(n, 0) == ChooseFrom(n, 1) + Choose(n, 0);
      assert ChooseFrom(n - 1, 0) == ChooseFrom(n - 1, 1) + Choose(n - 1, 0);
    }
  }

  lemma {:induction false} CombinationsCount(keys: seq<string>, size: nat)
    ensures |Combinations(keys, size)| == Choose(|keys|, size)
  {
    if size > 0 && keys != [] {
      hide Prepend;
      CombinationsCount(keys[1..], size - 1);
      CombinationsCount(keys[1..], size);
    }
  }

  lemma {:induction false} CandidatesCount(keys: seq<string>, size: nat)
    requires size <= |keys| + 1
    ensures |Candidates(keys, size)| == ChooseFrom(|keys|, size)
    decreases |keys| + 1 - size
  {
    if size <= |keys| {
      CandidatesCount(keys, size + 1);
      CombinationsCount(keys, size);
    }
  }

  /** The subset phase makes at most 2^n attempts. */
  lemma {:induction false} AttemptsBounded(keys: seq<string>)
    ensures |Candidates(keys, 0)| == Power2(|keys|)
  {
    CandidatesCount(keys, 0);
    ChooseAll(|keys|);
  }

  // ---------------------------------------------------------------- main results

  /** The subset phase is refused exactly when every subset of the keywords is rejected;
      otherwise it ends with a subset that is not rejected and no larger one is either. */
  lemma {:induction false} SearchIsExhaustive(keys: seq<string>, ctor: Constructor)
    requires Distinct(keys)
    ensures Searched(keys, ctor).Refused? <==> forall s :: s <= Names(keys) ==> Rejects(ctor, s)
    ensures Searched(keys, ctor).Object? ==>
      var kept := Searched(keys, ctor).kept;
      kept <= Names(keys) && ctor(kept) == Built
      && forall s :: s <= Names(keys) && |s| > |kept| ==> Rejects(ctor, s)
  {
    var cs := Candidates(keys, 0);
    var i := FirstNotRejected(cs, ctor);
    if i < |cs| {
      StopsAtLargest(keys, ctor, i);
      var kept := Names(cs[i]);
      assert kept <= Names(keys) && !Rejects(ctor, kept);
    } else {
      forall s | s <= Names(keys) ensures Rejects(ctor, s) {
        var j := CandidateOf(keys, s);
      }
    }
  }

  lemma {:induction false} StopsAtLargest(keys: seq<string>, ctor: Constructor, i: nat)
    requires Distinct(keys) && i < |Candidates(keys, 0)| && RejectsFirst(ctor, Candidates(keys, 0), i)
    ensures var kept := Names(Candidates(keys, 0)[i]);
      kept <= Names(keys) && forall s :: s <= Names(keys) && |s| > |kept| ==> Rejects(ctor, s)
  {
    hide Candidates, Rejects, Names, Distinct;
    var cs := Candidates(keys, 0);
    CandidatesHold(keys, 0);
    assert cs[i] in cs && Sized(cs[i], keys, 0);
    NamesSize(cs[i]);
    forall s | s <= Names(keys) && |s| > |Names(cs[i])| ensures Rejects(ctor, s) {
      var j := CandidateOf(keys, s);
      assert cs[j] in cs && Sized(cs[j], keys, 0);
      NamesSize(cs[j]);
      if i < j {
        LargerFirst(keys, 0, i, j);
      }
    }
  }

  /** A constructor that names a keyword as unexpected only if no accepted subset has it. */
  ghost predicate Honest(ctor: Constructor, all: set<string>) {
    forall s, t :: s <= all && t <= all && ctor(s).Unexpected? && ctor(t) == Built ==> ctor(s).name !in t
  }

  lemma {:induction false} PruneKeepsAccepted(keys: seq<string>, all: set<string>, ctor: Constructor)
    requires Names(keys) <= all && Honest(ctor, all)
    requires forall t :: t <= all && ctor(t) == Built ==> t <= Names(keys)
    ensures Names(Pruned(keys, ctor)) <= all
    ensures forall t :: t <= all && ctor(t) == Built ==> t <= Names(Pruned(keys, ctor))
    decreases |keys|
  {
    match ctor(Names(keys)) {
      case Unexpected(name) =>
        if name in keys {
          WithoutShorter(keys, name);
          assert Names(Without(keys, name)) == Names(keys) - {name};
          PruneKeepsAccepted(Without(keys, name), all, ctor);
        }
      case _ =>
    }
  }

  lemma {:induction false} PrunedWithin(keys: seq<string>, ctor: Constructor)
    ensures Names(Pruned(keys, ctor)) <= Names(keys)
    decreases |keys|
  {
    match ctor(Names(keys)) {
      case Unexpected(name) =>
        if name in keys {
          WithoutShorter(keys, name);
          PrunedWithin(Without(keys, name), ctor);
        }
      case _ =>
    }
  }

  /** Nothing is built and nothing crashes exactly when every subset of the keywords is rejected:
      dropping keywords first never turns an acceptable call away. */
  lemma {:induction false} RefusedExactly(keys: seq<string>, ctor: Constructor)
    requires Distinct(keys)
    ensures Instantiated(keys, ctor).Refused? <==> forall s :: s <= Names(keys) ==> Rejects(ctor, s)
  {
    PrunedWithin(keys, ctor);
    SearchIsExhaustive(keys, ctor);
  }

  /** The last subset tried is the empty one. */
  lemma {:induction false} EmptyIsLast(keys: seq<string>)
    ensures Candidates(keys, 0) != [] && Candidates(keys, 0)[|Candidates(keys, 0)| - 1] == []
  {
    assert Candidates(keys, 0) == Candidates(keys, 1) + [[]];
  }

  /** What leaves the search is what some call came to: the exception of a crashing one, the object
      of an accepted one, and else the rejection of the call without keywords. */
  lemma {:induction false} EndsAsACall(keys: seq<string>, ctor: Constructor)
    requires Distinct(keys)
    ensures match Instantiated(keys, ctor)
      case Crashed(t) => exists s :: s <= Names(keys) && ctor(s) == Crash(t)
      case Object(kept) => kept <= Names(keys) && ctor(kept) == Built
      case Refused(last) => last == ctor({})
  {
    PrunedWithin(keys, ctor);
    EmptyIsLast(keys);
    var left, cs := Names(Pruned(keys, ctor)), Candidates(keys, 0);
    if Rejects(ctor, left) {
      var i := FirstNotRejected(cs, ctor);
      if i < |cs| {
        StopsAtLargest(keys, ctor, i);
        assert Names(cs[i]) <= Names(keys);
      } else {
        assert Names([]) == {};
      }
    }
  }

  /** What is built from these keywords, if anything is, is built from a largest accepted subset. */
  ghost predicate WellBuilt(keys: seq<string>, ctor: Constructor) {
    Instantiated(keys, ctor).Object? ==>
      var kept := Instantiated(keys, ctor).kept;
      kept <= Names(keys) && ctor(kept) == Built
      && forall t :: t <= Names(keys) && ctor(t) == Built ==> |t| <= |kept|
  }

  /** Some accepted subset without the keyword is as large as this one. */
  ghost predicate Spared(keys: seq<string>, ctor: Constructor, name: string, t: set<string>) {
    exists u :: u <= Names(keys) - {name} && ctor(u) == Built && |u| >= |t|
  }

  /** If the constructor blames one of these keywords, and dropping keywords leads to a call it
      accepts, then it could do without the keyword: for every accepted subset there is one as
      large that does not have it. */
  ghost predicate BlamesSpareable(keys: seq<string>, ctor: Constructor) {
    var reply := ctor(Names(keys));
    reply.Unexpected? && reply.name in keys && ctor(Names(Pruned(keys, ctor))) == Built ==>
      forall t :: t <= Names(keys) && ctor(t) == Built ==> Spared(keys, ctor, reply.name, t)
  }

  lemma {:induction false} NamesWithout(keys: seq<string>, name: string)
    requires Distinct(keys)
    ensures Names(Without(keys, name)) == Names(keys) - {name} && Distinct(Without(keys, name))
  {
    FilterDistinct(keys, OtherThan(name));
  }

  /** Dropping spareable keywords loses no size. */
  lemma {:induction false} PrunedIsLargest(keys: seq<string>, all: set<string>, ctor: Constructor)
    requires Distinct(keys) && Names(keys) <= all && ctor(Names(Pruned(keys, ctor))) == Built
    requires forall ks :: Distinct(ks) && Names(ks) <= all ==> BlamesSpareable(ks, ctor)
    ensures forall t :: t <= Names(keys) && ctor(t) == Built ==> |t| <= |Names(Pruned(keys, ctor))|
    decreases |keys|
  {
    var reply := ctor(Names(keys));
    if reply.Unexpected? && reply.name in keys {
      var rest := Without(keys, reply.name);
      WithoutShorter(keys, reply.name);
      NamesWithout(keys, reply.name);
      PrunedIsLargest(rest, all, ctor);
      assert BlamesSpareable(keys, ctor);
      forall t | t <= Names(keys) && ctor(t) == Built ensures |t| <= |Names(Pruned(keys, ctor))| {
        assert Spared(keys, ctor, reply.name, t);
        var u :| u <= Names(keys) - {reply.name} && ctor(u) == Built && |u| >= |t|;
        assert u <= Names(rest);
      }
    } else {
      forall t | t <= Names(keys) ensures |t| <= |Names(keys)| {
        SubsetSize(t, Names(keys));
      }
    }
  }

  lemma {:induction false} SpareableBuildsLargest(keys: seq<string>, all: set<string>, ctor: Constructor)
    requires Distinct(keys) && Names(keys) <= all
    requires forall ks :: Distinct(ks) && Names(ks) <= all ==> BlamesSpareable(ks, ctor)
    ensures WellBuilt(keys, ctor)
  {
    var left := Names(Pruned(keys, ctor));
    PrunedWithin(keys, ctor);
    SearchIsExhaustive(keys, ctor);
    if ctor(left) == Built {
      PrunedIsLargest(keys, all, ctor);
    }
  }

  lemma {:induction false} LargestIsSpareable(keys: seq<string>, ctor: Constructor)
    requires Distinct(keys) && WellBuilt(keys, ctor)
    ensures BlamesSpareable(keys, ctor)
  {
    var reply := ctor(Names(keys));
    if reply.Unexpected? && reply.name in keys && ctor(Names(Pruned(keys, ctor))) == Built {
      var rest := Without(keys, reply.name);
      WithoutShorter(keys, reply.name);
      NamesWithout(keys, reply.name);
      PrunedWithin(rest, ctor);
      var u := Names(Pruned(keys, ctor));
      assert Instantiated(keys, ctor) == Object(u) && u <= Names(keys) - {reply.name};
    }
  }

  /** A constructor is built with a largest accepted subset, whichever of the keywords it is
      given, if and only if it blames only keywords it could do without. */
  lemma {:induction false} BuildsLargest(all: set<string>, ctor: Constructor)
    ensures (forall keys :: Distinct(keys) && Names(keys) <= all ==> WellBuilt(keys, ctor))
      <==> (forall keys :: Distinct(keys) && Names(keys) <= all ==> BlamesSpareable(keys, ctor))
  {
    hide WellBuilt, BlamesSpareable;
    if forall keys :: Distinct(keys) && Names(keys) <= all ==> WellBuilt(keys, ctor) {
      forall keys | Distinct(keys) && Names(keys) <= all ensures BlamesSpareable(keys, ctor) {
        LargestIsSpareable(keys, ctor);
      }
    }
    if forall keys :: Distinct(keys) && Names(keys) <= all ==> BlamesSpareable(keys, ctor) {
      forall keys | Distinct(keys) && Names(keys) <= all ensures WellBuilt(keys, ctor) {
        SpareableBuildsLargest(keys, all, ctor);
      }
    }
  }

  /** A corollary: with an honest constructor whatever is built is built from a largest accepted
      subset. */
  lemma {:induction false} HonestBuildsLargest(keys: seq<string>, ctor: Constructor)
    requires Distinct(keys) && Honest(ctor, Names(keys)) && Instantiated(keys, ctor).Object?
    ensures var kept := Instantiated(keys, ctor).kept;
      kept <= Names(keys) && ctor(kept) == Built
      && forall t :: t <= Names(keys) && ctor(t) == Built ==> |t| <= |kept|
  {
    PruneKeepsAccepted(keys, Names(keys), ctor);
    SearchIsExhaustive(keys, ctor);
    var left := Names(Pruned(keys, ctor));
    if !Rejects(ctor, left) {
      forall t | t <= Names(keys) && ctor(t) == Built ensures |t| <= |left| {
        SubsetSize(t, left);
      }
    }
  }

  /** A constructor that blames two keywords in turn and takes {a, b} as well as {c}. */
  function Blaming(a: string, b: string, c: string): Constructor {
    (s: set<string>) =>
      if s == {a, b, c} then Unexpected(a)
      else if s == {b, c} then Unexpected(b)
      else if s == {c} || s == {a, b} then Built
      else Incompatible
  }

  /** A case outside: this constructor is built with one keyword although it would have
      taken the other two. */
  lemma {:induction false} DishonestLosesKeywords(a: string, b: string, c: string)
    requires a != b && b != c && a != c
    ensures Instantiated([a, b, c], Blaming(a, b, c)) == Object({c})
    ensures Blaming(a, b, c)({a, b}) == Built
  {
    var ctor := Blaming(a, b, c);
    assert b !in {c} && a !in {b, c} && c !in {a, b};
    assert ctor({a, b, c}) == Unexpected(a) && ctor({b, c}) == Unexpected(b) && ctor({c}) == Built;
    hide Blaming;
    assert Names([a, b, c]) == {a, b, c} && Names([b, c]) == {b, c} && Names([c]) == {c};
    DropFirst(a, [b, c]);
    DropFirst(b, [c]);
    assert [a] + [b, c] == [a, b, c] && [b] + [c] == [b, c];
    hide Without, Names;
    assert Pruned([c], ctor) == [c];
    assert Pruned([b, c], ctor) == [c];
    assert Pruned([a, b, c], ctor) == [c];
  }

  lemma {:induction false} DropFirst(x: string, rest: seq<string>)
    requires x !in rest
    ensures Without([x] + rest, x) == rest
  {
    assert ([x] + rest)[1..] == rest;
    FilterAll(rest, OtherThan(x));
  }
}
