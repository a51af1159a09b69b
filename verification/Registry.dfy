/** `LazyDict`: nested dictionaries addressed by dotted, case-insensitive paths. The dictionaries
    are objects that can be shared, so they live in a table under their references. */
module Registry {
  import opened Sequences

  type Ref = nat

  datatype Entry = Class(tag: int) | Group(ref: Ref)

  type Dicts = map<Ref, map<string, Entry>>

  datatype Failure = KeyError | NotAGroup | DefaultKey

  datatype Result<+T> = Ok(value: T) | Err(error: Failure)

  ghost predicate Closed(h: Dicts) {
    forall r, k :: r in h && k in h[r] && h[r][k].Group? ==> h[r][k].ref in h
  }

  // ---------------------------------------------------------------- letter case and dots

  function LowerChar(c: char): char {
    if 'A' <= c <= 'Z' then c - 'A' + 'a' else c
  }

  function Lower(s: string): (r: string)
    ensures |r| == |s| && forall i :: 0 <= i < |s| ==> r[i] == LowerChar(s[i])
  {
    Map(s, LowerChar)
  }

  predicate Lowered(s: string) {
    forall c :: c in s ==> LowerChar(c) == c
  }

  lemma {:induction false} LowerTwice(s: string)
    ensures Lowered(Lower(s))
    ensures Lowered(s) ==> Lower(s) == s
  {
    forall c | c in Lower(s) ensures LowerChar(c) == c {
      var i :| 0 <= i < |s| && Lower(s)[i] == c;
    }
  }

  /** The same character, or a letter of the English alphabet in its other case. */
  predicate SameLetter(a: char, b: char) {
    a == b || ('A' <= a <= 'Z' && b as int == a as int + 32) || ('A' <= b <= 'Z' && a as int == b as int + 32)
  }

  /** Equal but for the case of letters. */
  predicate SamePath(s: string, t: string) {
    |s| == |t| && forall i :: 0 <= i < |s| ==> SameLetter(s[i], t[i])
  }

  /** Lowering identifies exactly the paths that differ in the case of letters only. */
  lemma {:induction false} LowerEqual(s: string, t: string)
    ensures Lower(s) == Lower(t) <==> SamePath(s, t)
  {
    if Lower(s) == Lower(t) {
      forall i | 0 <= i < |s| ensures SameLetter(s[i], t[i]) {
        assert Lower(s)[i] == Lower(t)[i];
      }
    }
  }

  function FirstDot(k: string): (i: nat)
    requires '.' in k
    ensures i < |k| && k[i] == '.' && '.' !in k[..i]
  {
    if k[0] == '.' then 0
    else
      var i := 1 + FirstDot(k[1..]);
      assert k[..i] == [k[0]] + k[1..][..i - 1];
      i
  }

  function LastDot(k: string): (i: nat)
    requires '.' in k
    ensures i < |k| && k[i] == '.' && '.' !in k[i + 1..]
  {
    if k[|k| - 1] == '.' then |k| - 1
    else
      var i := LastDot(k[..|k| - 1]);
      assert k[i + 1..] == k[..|k| - 1][i + 1..] + [k[|k| - 1]];
      i
  }

  /** The names a path consists of. */
  function Components(k: string): (r: seq<string>)
    ensures r != []
    decreases |k|
  {
    if '.' in k then [k[..FirstDot(k)]] + Components(k[FirstDot(k) + 1..]) else [k]
  }

  lemma {:induction false} FirstDotIs(a: string, b: string)
    requires '.' !in a
    ensures '.' in a + "." + b && FirstDot(a + "." + b) == |a|
  {
    var k := a + "." + b;
    assert k[|a|] == '.';
    assert forall j :: 0 <= j < |a| ==> k[j] == a[j] && a[j] in a;
  }

  /** The first name of a path, and the rest. */
  lemma {:induction false} ComponentsOf(head: string, tail: string)
    requires '.' !in head
    ensures Components(head + "." + tail) == [head] + Components(tail)
  {
    hide FirstDot;
    var k := head + "." + tail;
    FirstDotIs(head, tail);
    assert k[..|head|] == head && k[|head| + 1..] == tail;
  }

  lemma {:induction false} ComponentsJoined(a: string, b: string)
    requires '.' !in b
    ensures Components(a + "." + b) == Components(a) + [b]
    decreases |a|
  {
    hide FirstDot, Components;
    if '.' in a {
      var i := FirstDot(a);
      var head, rest := a[..i], a[i + 1..];
      ComponentsJoined(rest, b);
      ComponentsOf(head, rest);
      ComponentsOf(head, rest + "." + b);
      assert a == head + "." + rest;
      assert a + "." + b == head + "." + (rest + "." + b);
      assert [head] + (Components(rest) + [b]) == ([head] + Components(rest)) + [b];
    } else {
      ComponentsOf(a, b);
      OneComponent(a);
      OneComponent(b);
    }
  }

  lemma {:induction false} OneComponent(k: string)
    requires '.' !in k
    ensures Components(k) == [k]
  {
  }

  /** Splitting at the last dot cuts off the last name. */
  lemma {:induction false} ComponentsAtLastDot(k: string)
    requires '.' in k
    ensures Components(k) == Components(k[..LastDot(k)]) + [k[LastDot(k) + 1..]]
  {
    hide Components, LastDot;
    var j := LastDot(k);
    assert k == k[..j] + "." + k[j + 1..];
    ComponentsJoined(k[..j], k[j + 1..]);
  }

  // ---------------------------------------------------------------- lookup and store

  /** `__getitem__` of the dictionary `r`. */
  function GetItem(h: Dicts, r: Ref, key: string): (result: Result<Entry>)
    requires Closed(h) && r in h
    ensures result.Ok? && result.value.Group? ==> result.value.ref in h
    decreases |key|
  {
    var k := Lower(key);
    if '.' in k then
      var i := FirstDot(k);
      match GetItem(h, r, k[..i])
      case Ok(Group(g)) => GetItem(h, g, k[i + 1..])
      case Ok(Class(_)) => Err(NotAGroup)
      case Err(e) => Err(e)
    else if k in h[r] then Ok(h[r][k])
    else Err(KeyError)
  }

  class LazyDicts {
    var dicts: Dicts

    ghost predicate Valid()
      reads this
    {
      Closed(dicts)
    }

    /** `__setitem__` of the dictionary `r`. */
    method SetItem(r: Ref, key: string, value: Entry) returns (failure: Option<Failure>)
      requires Valid() && r in dicts && (value.Group? ==> value.ref in dicts)
      modifies this
      ensures Valid()
      ensures var (f, h) := Stored(old(dicts), r, Components(Lower(key)), value); failure == f && dicts == h
      decreases |key|
    {
      hide LastDot, FirstDot, Find, GetItem, Lowered;
      var k := Lower(key);
      LowerTwice(key);
      if k == "default" {
        assert '.' !in k;
        return Some(DefaultKey);
      }
      if '.' in k {
        var i := LastDot(k);
        SliceLowered(k, i);
        ComponentsAtLastDot(k);
        GetIsFind(dicts, r, k[..i]);
        match GetItem(dicts, r, k[..i]) {
          case Ok(Group(g)) =>
            assert Components(k[i + 1..]) == [k[i + 1..]];
            failure := SetItem(g, k[i + 1..], value);
          case Ok(Class(_)) =>
            failure := Some(NotAGroup);
          case Err(e) =>
            failure := Some(e);
        }
      } else {
        dicts := dicts[r := dicts[r][k := value]];
        failure := None;
      }
    }
  }

  lemma {:induction false} SliceLowered(k: string, i: nat)
    requires Lowered(k) && i < |k|
    ensures Lower(k[..i]) == k[..i] && Lower(k[i + 1..]) == k[i + 1..]
  {
    LowerTwice(k[..i]);
    LowerTwice(k[i + 1..]);
  }

  // ---------------------------------------------------------------- by names

  /** Follow the names one dictionary at a time. */
  function Find(h: Dicts, r: Ref, path: seq<string>): (result: Result<Entry>)
    requires Closed(h) && r in h && path != []
    ensures result.Ok? && result.value.Group? ==> result.value.ref in h
    decreases |path|
  {
    if path[0] !in h[r] then Err(KeyError)
    else if |path| == 1 then Ok(h[r][path[0]])
    else
      match h[r][path[0]]
      case Group(g) => Find(h, g, path[1..])
      case Class(_) => Err(NotAGroup)
  }

  /** Storing under the last name in the dictionary the other names lead to. */
  ghost function Stored(h: Dicts, r: Ref, path: seq<string>, value: Entry): (Option<Failure>, Dicts)
    requires Closed(h) && r in h && path != []
  {
    var last := path[|path| - 1];
    if |path| == 1 then
      if last == "default" then (Some(DefaultKey), h) else (None, h[r := h[r][last := value]])
    else
      match Find(h, r, path[..|path| - 1])
      case Ok(Group(g)) => if last == "default" then (Some(DefaultKey), h) else (None, h[g := h[g][last := value]])
      case Ok(Class(_)) => (Some(NotAGroup), h)
      case Err(e) => (Some(e), h)
  }

  /** Looking a path up by cutting it at first dots follows its names. */
  lemma {:induction false} GetIsFind(h: Dicts, r: Ref, key: string)
    requires Closed(h) && r in h
    ensures GetItem(h, r, key) == Find(h, r, Components(Lower(key)))
    decreases |key|
  {
    var k := Lower(key);
    LowerTwice(key);
    if '.' in k {
      var i := FirstDot(k);
      SliceLowered(k, i);
      assert Components(k)[1..] == Components(k[i + 1..]);
      GetIsFind(h, r, k[..i]);
      match GetItem(h, r, k[..i]) {
        case Ok(Group(g)) => GetIsFind(h, g, k[i + 1..]);
        case _ =>
      }
    }
  }

  // ---------------------------------------------------------------- store, then look up

  /** The dictionary a path leads to; the empty path stays where it is. */
  ghost function Dir(h: Dicts, r: Ref, path: seq<string>): (d: Option<Ref>)
    requires Closed(h) && r in h
    ensures d.Some? ==> d.value in h
  {
    if path == [] then Some(r)
    else match Find(h, r, path) case Ok(Group(g)) => Some(g) case _ => None
  }

  /** No dictionary is reached along two paths. */
  ghost predicate Unshared(h: Dicts, root: Ref)
    requires Closed(h) && root in h
  {
    forall p, q :: Dir(h, root, p).Some? && Dir(h, root, p) == Dir(h, root, q) ==> p == q
  }

  ghost predicate Tree(h: Dicts, root: Ref) {
    Closed(h) && root in h && Unshared(h, root)
  }

  ghost predicate Entrant(h: Dicts, value: Entry) {
    value.Group? ==> value.ref in h
  }

  lemma {:induction false} FindFurther(h: Dicts, r: Ref, a: seq<string>, b: seq<string>)
    requires Closed(h) && r in h && b != []
    ensures Dir(h, r, a).Some? ==> Find(h, r, a + b) == Find(h, Dir(h, r, a).value, b)
    ensures a != [] && Find(h, r, a) == Err(KeyError) ==> Find(h, r, a + b) == Err(KeyError)
    ensures a != [] && Find(h, r, a).Ok? && Find(h, r, a).value.Class? ==> Find(h, r, a + b) == Err(NotAGroup)
    decreases |a|
  {
    if a == [] {
      assert a + b == b;
    } else {
      assert (a + b)[0] == a[0] && (a + b)[1..] == a[1..] + b;
      if a[0] in h[r] && h[r][a[0]].Group? {
        if |a| == 1 {
          assert a[1..] + b == b;
        } else {
          FindFurther(h, h[r][a[0]].ref, a[1..], b);
        }
      }
    }
  }

  /** What a path is looked up to, at the first of its names that is not a group: a KeyError if it
      is missing, what it names if it is the last, and otherwise an error of its own. */
  lemma {:induction false} FindByWalk(h: Dicts, r: Ref, path: seq<string>, n: nat)
    requires Closed(h) && r in h && n < |path| && Dir(h, r, path[..n]).Some?
    ensures var d, name := h[Dir(h, r, path[..n]).value], path[n];
      (name !in d ==> Find(h, r, path) == Err(KeyError))
      && (name in d && n + 1 == |path| ==> Find(h, r, path) == Ok(d[name]))
      && (name in d && n + 1 < |path| && d[name].Class? ==> Find(h, r, path) == Err(NotAGroup))
  {
    assert path == path[..n] + path[n..];
    FindFurther(h, r, path[..n], path[n..]);
  }

  /** A store that fails: with the error of looking its group up, with an error of its own if there
      is no group at that path, else for the name `default`. */
  lemma {:induction false} StoreFails(h: Dicts, r: Ref, path: seq<string>, value: Entry)
    requires Closed(h) && r in h && path != []
    ensures var front, last, f := path[..|path| - 1], path[|path| - 1], Stored(h, r, path, value).0;
      (Dir(h, r, front).Some? && last == "default" ==> f == Some(DefaultKey))
      && (front != [] && Find(h, r, front).Err? ==> f == Some(Find(h, r, front).error))
      && (front != [] && Find(h, r, front).Ok? && Find(h, r, front).value.Class? ==> f == Some(NotAGroup))
  {
    if |path| == 1 {
      assert path[..|path| - 1] == [];
    }
  }

  /** A store succeeds exactly when its group exists and its last name is not `default`;
      otherwise nothing changes. */
  lemma {:induction false} StoreSucceeds(h: Dicts, r: Ref, path: seq<string>, value: Entry)
    requires Closed(h) && r in h && path != [] && Entrant(h, value)
    ensures var front, last := path[..|path| - 1], path[|path| - 1];
      Stored(h, r, path, value).0.None? <==> last != "default" && Dir(h, r, front).Some?
    ensures Stored(h, r, path, value).0.Some? ==> Stored(h, r, path, value).1 == h
    ensures Stored(h, r, path, value).0.None? ==>
      var g := Dir(h, r, path[..|path| - 1]).value;
      Stored(h, r, path, value).1 == h[g := h[g][path[|path| - 1] := value]]
    ensures Closed(Stored(h, r, path, value).1) && Stored(h, r, path, value).1.Keys == h.Keys
  {
    if |path| == 1 {
      assert path[..|path| - 1] == [];
    }
  }

  /** The state of a successful store. */
  ghost predicate StoreDone(h: Dicts, root: Ref, path: seq<string>, value: Entry, after: Dicts) {
    Tree(h, root) && path != [] && Entrant(h, value) && Stored(h, root, path, value) == (None, after)
  }

  /** A walk that does not run through the stored path finds what it found before: `b` are the
      names left at the dictionary that `a` led to. */
  lemma {:induction false} OthersFrom(h: Dicts, root: Ref, path: seq<string>, value: Entry, after: Dicts,
                                      a: seq<string>, b: seq<string>)
    requires StoreDone(h, root, path, value, after) && b != [] && !(path <= a + b)
    requires Dir(h, root, a).Some?
    ensures Closed(after) && after.Keys == h.Keys
    ensures Find(after, Dir(h, root, a).value, b) == Find(h, Dir(h, root, a).value, b)
    decreases |b|
  {
    hide Unshared, Stored;
    StoreSucceeds(h, root, path, value);
    var x := Dir(h, root, a).value;
    var front, last := path[..|path| - 1], path[|path| - 1];
    var g := Dir(h, root, front).value;
    if x == g && b[0] == last {
      OnePath(h, root, a, front);
      assert false;
    }
    assert b[0] in after[x] <==> b[0] in h[x];
    assert b[0] in h[x] ==> after[x][b[0]] == h[x][b[0]];
    if |b| > 1 && b[0] in h[x] && h[x][b[0]].Group? {
      FindFurther(h, root, a, [b[0]]);
      assert a + b == (a + [b[0]]) + b[1..];
      OthersFrom(h, root, path, value, after, a + [b[0]], b[1..]);
    }
  }

  lemma {:induction false} OnePath(h: Dicts, root: Ref, p: seq<string>, q: seq<string>)
    requires Tree(h, root) && Dir(h, root, p).Some? && Dir(h, root, p) == Dir(h, root, q)
    ensures p == q
  {
  }

  /** After a store, its path finds the value, longer paths go on inside the value, and every
      other path finds what it found before. */
  lemma {:induction false} FindAfterStore(h: Dicts, root: Ref, path: seq<string>, value: Entry, after: Dicts,
                                          q: seq<string>)
    requires StoreDone(h, root, path, value, after) && q != []
    ensures Closed(after) && after.Keys == h.Keys
    ensures !(path <= q) ==> Find(after, root, q) == Find(h, root, q)
    ensures q == path ==> Find(after, root, q) == Ok(value)
    ensures path < q && value.Class? ==> Find(after, root, q) == Err(NotAGroup)
    ensures path < q && value.Group? ==> Find(after, root, q) == Find(after, value.ref, q[|path|..])
  {
    hide Stored, Find;
    StoreSucceeds(h, root, path, value);
    if !(path <= q) {
      assert [] + q == q;
      OthersFrom(h, root, path, value, after, [], q);
    } else {
      StoredIsFound(h, root, path, value, after);
      if path < q {
        assert q == path + q[|path|..];
        FindFurther(after, root, path, q[|path|..]);
      }
    }
  }

  lemma {:induction false} StoredIsFound(h: Dicts, root: Ref, path: seq<string>, value: Entry, after: Dicts)
    requires StoreDone(h, root, path, value, after)
    ensures Closed(after) && root in after && Find(after, root, path) == Ok(value)
  {
    hide Stored;
    StoreSucceeds(h, root, path, value);
    var front, last := path[..|path| - 1], path[|path| - 1];
    if front == [] {
      assert path == [last];
    } else {
      assert [] + front == front && !(path <= front);
      OthersFrom(h, root, path, value, after, [], front);
      assert path == front + [last];
      FindFurther(after, root, front, [last]);
    }
  }

  /** The law the registry is used by: whatever the letter case, a stored path is looked up to
      the stored value although storing splits at the last dot and looking up at the first, and
      paths that do not begin with it are looked up to what they were before. */
  lemma {:induction false} StoreThenLookup(h: Dicts, root: Ref, key: string, value: Entry, after: Dicts, other: string)
    requires StoreDone(h, root, Components(Lower(key)), value, after)
    ensures Closed(after) && root in after
    ensures SamePath(other, key) ==> GetItem(after, root, other) == Ok(value)
    ensures !(Components(Lower(key)) <= Components(Lower(other))) ==>
      GetItem(after, root, other) == GetItem(h, root, other)
  {
    LowerEqual(other, key);
    hide Components, GetItem, Stored, Find, Lower;
    FindAfterStore(h, root, Components(Lower(key)), value, after, Components(Lower(other)));
    GetIsFind(after, root, other);
    GetIsFind(h, root, other);
  }

  // ---------------------------------------------------------------- registrations keep the tree

  /** An empty dictionary that no path leads to, or no dictionary at all. */
  ghost predicate Fresh(h: Dicts, root: Ref, value: Entry)
    requires Closed(h) && root in h
  {
    value.Group? ==> value.ref in h && h[value.ref] == map[] && forall p :: Dir(h, root, p) != Some(value.ref)
  }

  lemma {:induction false} DirAfterStore(h: Dicts, root: Ref, path: seq<string>, value: Entry, after: Dicts,
                                         q: seq<string>)
    requires StoreDone(h, root, path, value, after) && Fresh(h, root, value)
    ensures Closed(after) && root in after
    ensures Dir(after, root, q) ==
      if !(path <= q) then Dir(h, root, q)
      else if q == path && value.Group? then Some(value.ref)
      else None
  {
    hide Stored, Unshared;
    StoreSucceeds(h, root, path, value);
    if q != [] {
      FindAfterStore(h, root, path, value, after, q);
      if path < q && value.Group? {
        assert Dir(h, root, path[..|path| - 1]) != Some(value.ref);
        assert after[value.ref] == map[];
      }
    }
  }

  lemma {:induction false} StoreKeepsTree(h: Dicts, root: Ref, path: seq<string>, value: Entry, after: Dicts)
    requires StoreDone(h, root, path, value, after) && Fresh(h, root, value)
    ensures Tree(after, root)
  {
    hide Stored, Dir, Find;
    StoreSucceeds(h, root, path, value);
    forall p, q | Dir(after, root, p).Some? && Dir(after, root, p) == Dir(after, root, q) ensures p == q {
      DirAfterStore(h, root, path, value, after, p);
      DirAfterStore(h, root, path, value, after, q);
    }
  }

  /** Registering a class under a path, or a base class with a new group of its own. */
  datatype Registration = AddClass(key: string, tag: int) | AddGroup(key: string)

  datatype State = State(dicts: Dicts, next: Ref)

  ghost predicate Sound(s: State, root: Ref) {
    Tree(s.dicts, root) && forall r :: r in s.dicts ==> r < s.next
  }

  /** Registering; a failure leaves the registry as it was. */
  ghost function Register(s: State, root: Ref, e: Registration): State
    requires Sound(s, root)
  {
    var path := Components(Lower(e.key));
    match e
    case AddClass(_, tag) => s.(dicts := Stored(s.dicts, root, path, Class(tag)).1)
    case AddGroup(_) =>
      var h := s.dicts[s.next := map[]];
      State(Stored(h, root, path, Group(s.next)).1, s.next + 1)
  }

  lemma {:induction false} FindWithNew(h: Dicts, r: Ref, path: seq<string>, n: Ref)
    requires Closed(h) && r in h && path != [] && n !in h
    ensures Closed(h[n := map[]]) && Find(h[n := map[]], r, path) == Find(h, r, path)
    decreases |path|
  {
    if path[0] in h[r] && |path| > 1 && h[r][path[0]].Group? {
      FindWithNew(h, h[r][path[0]].ref, path[1..], n);
    }
  }

  lemma {:induction false} NewGroupKeepsTree(h: Dicts, root: Ref, n: Ref)
    requires Tree(h, root) && n !in h
    ensures Tree(h[n := map[]], root) && Fresh(h[n := map[]], root, Group(n))
  {
    hide Find;
    var more := h[n := map[]];
    forall p ensures Closed(more) && Dir(more, root, p) == Dir(h, root, p) {
      if p != [] {
        FindWithNew(h, root, p, n);
      }
    }
  }

  lemma {:induction false} RegisterIsSound(s: State, root: Ref, e: Registration)
    requires Sound(s, root)
    ensures Sound(Register(s, root, e), root)
  {
    hide Components, Stored, Dir;
    var path := Components(Lower(e.key));
    match e {
      case AddClass(_, tag) =>
        var (failure, after) := Stored(s.dicts, root, path, Class(tag));
        StoreSucceeds(s.dicts, root, path, Class(tag));
        if failure.None? {
          StoreKeepsTree(s.dicts, root, path, Class(tag), after);
        }
      case AddGroup(_) =>
        var h := s.dicts[s.next := map[]];
        NewGroupKeepsTree(s.dicts, root, s.next);
        var (failure, after) := Stored(h, root, path, Group(s.next));
        StoreSucceeds(h, root, path, Group(s.next));
        if failure.None? {
          StoreKeepsTree(h, root, path, Group(s.next), after);
        }
    }
  }

  lemma {:induction false} EmptyIsSound(root: Ref)
    ensures Sound(State(map[root := map[]], root + 1), root)
  {
    var h: Dicts := map[root := map[]];
    assert Closed(h);
    forall p, q | Dir(h, root, p).Some? && Dir(h, root, p) == Dir(h, root, q) ensures p == q {
      assert p == [] && q == [];
    }
  }

  /** The registry after any registrations, failed ones included. */
  ghost function Registered(root: Ref, events: seq<Registration>): (s: State)
    ensures Sound(s, root)
    decreases |events|
  {
    if events == [] then
      EmptyIsSound(root);
      State(map[root := map[]], root + 1)
    else
      var before := Registered(root, events[..|events| - 1]);
      RegisterIsSound(before, root, events[|events| - 1]);
      Register(before, root, events[|events| - 1])
  }

  /** The law over whole runs: whatever was registered before, a class registered under a path is
      found under that path in any letter case, and no path that does not begin with it changes. */
  lemma {:induction false} RegisteredIsFound(root: Ref, events: seq<Registration>, key: string, tag: int, other: string)
    requires Stored(Registered(root, events).dicts, root, Components(Lower(key)), Class(tag)).0.None?
    ensures var before, after := Registered(root, events).dicts, Registered(root, events + [AddClass(key, tag)]).dicts;
      (Lower(other) == Lower(key) ==> GetItem(after, root, other) == Ok(Class(tag)))
      && (!(Components(Lower(key)) <= Components(Lower(other))) ==>
        GetItem(after, root, other) == GetItem(before, root, other))
  {
    hide Components, GetItem, Stored, Unshared;
    var more := events + [AddClass(key, tag)];
    assert more[..|more| - 1] == events && more[|more| - 1] == AddClass(key, tag);
    var before, after := Registered(root, events), Registered(root, more);
    assert after == Register(before, root, AddClass(key, tag));
    assert StoreDone(before.dicts, root, Components(Lower(key)), Class(tag), after.dicts);
    StoreThenLookup(before.dicts, root, key, Class(tag), after.dicts, other);
  }
}
