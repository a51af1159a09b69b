/** The node table of the light engine: the edge relation between nodes, the recursive listing
    of what is below a node, and the release of nodes together with everything below them. */
module Engine {
  import opened Sequences

  type Id = string

  const START: Id := "__start__"
  const END: Id := "__end__"
  const LOCKED: set<Id> := {START, END}

  /** A value found in a node's arguments: an id, a node description, or a list of either. */
  datatype Data = Leaf(id: Id) | Described(id: Id) | Items(items: seq<Data>)

  /** One entry of `subitem_name`: the argument itself, or with `:dict` the values of a table. */
  datatype Source = Argument(data: Data) | Table(values: seq<Data>)

  datatype Node = Node(id: Id, sources: seq<Source>)

  type Nodes = map<Id, Node>

  /** `extract_all_ids` of every element. */
  function AllIds(ds: seq<Data>): seq<Id> {
    if ds == [] then []
    else (match ds[0] case Items(items) => AllIds(items) case _ => [ds[0].id]) + AllIds(ds[1..])
  }

  function SourceIds(sources: seq<Source>): seq<Id> {
    if sources == [] then []
    else AllIds(match sources[0] case Argument(d) => [d] case Table(vs) => vs) + SourceIds(sources[1..])
  }

  function Subitems(node: Node): seq<Id> {
    SourceIds(node.sources)
  }

  // ---------------------------------------------------------------- which ids are subitems

  /** The id is this value, or is found at any depth of the list it is. */
  ghost predicate Occurs(d: Data, x: Id)
    decreases d
  {
    match d
    case Items(items) => exists i :: 0 <= i < |items| && Occurs(items[i], x)
    case _ => d.id == x
  }

  predicate Holds(source: Source, d: Data) {
    match source
    case Argument(data) => d == data
    case Table(values) => d in values
  }

  ghost predicate OccursIn(sources: seq<Source>, x: Id) {
    exists i, d :: 0 <= i < |sources| && Holds(sources[i], d) && Occurs(d, x)
  }

  ghost predicate HasSubitem(node: Node, x: Id) {
    OccursIn(node.sources, x)
  }

  lemma {:induction false} AllIdsOccur(ds: seq<Data>, x: Id)
    ensures x in AllIds(ds) <==> exists i :: 0 <= i < |ds| && Occurs(ds[i], x)
    decreases ds
  {
    if ds != [] {
      AllIdsOccur(ds[1..], x);
      if ds[0].Items? {
        AllIdsOccur(ds[0].items, x);
      }
      if x in AllIds(ds[1..]) {
        var i :| 0 <= i < |ds[1..]| && Occurs(ds[1..][i], x);
        assert Occurs(ds[i + 1], x);
      }
      if exists i :: 0 < i < |ds| && Occurs(ds[i], x) {
        var i :| 0 < i < |ds| && Occurs(ds[i], x);
        assert Occurs(ds[1..][i - 1], x);
      }
    }
  }

  lemma {:induction false} SourceIdsOccur(sources: seq<Source>, x: Id)
    ensures x in SourceIds(sources) <==> OccursIn(sources, x)
  {
    if sources != [] {
      var first, rest := sources[0], sources[1..];
      var ds := match first case Argument(d) => [d] case Table(vs) => vs;
      SourceIdsOccur(rest, x);
      AllIdsOccur(ds, x);
      if x in AllIds(ds) {
        var i :| 0 <= i < |ds| && Occurs(ds[i], x);
        assert Holds(sources[0], ds[i]);
      }
      if x in SourceIds(rest) {
        var i, d :| 0 <= i < |rest| && Holds(rest[i], d) && Occurs(d, x);
        assert Holds(sources[i + 1], d);
      }
      if exists i, d :: 0 <= i < |sources| && Holds(sources[i], d) && Occurs(d, x) {
        var i, d :| 0 <= i < |sources| && Holds(sources[i], d) && Occurs(d, x);
        if i == 0 {
          assert d in ds;
          var j :| 0 <= j < |ds| && ds[j] == d;
        } else {
          assert Holds(rest[i - 1], d);
        }
      }
    }
  }

  /** `subitems` lists exactly the ids that occur, at any depth, in the arguments it names. */
  lemma {:induction false} SubitemsOccur(node: Node, x: Id)
    ensures x in Subitems(node) <==> HasSubitem(node, x)
  {
    SourceIdsOccur(node.sources, x);
  }

  // ---------------------------------------------------------------- the recursive listing

  /** `subnodes(id, recursive=True)`; nothing when more than `depth` nested calls are needed,
      which Python answers with a RecursionError. */
  function Subnodes(nodes: Nodes, id: Id, depth: nat): Option<seq<Id>>
    decreases depth, 0, 0
  {
    if depth == 0 then None
    else if id !in nodes then Some([])
    else Expand(nodes, Subitems(nodes[id]), depth - 1)
  }

  /** The loop over the subitems of one node: each is listed, then everything below it. */
  function Expand(nodes: Nodes, ids: seq<Id>, depth: nat): Option<seq<Id>>
    decreases depth, 1, |ids|
  {
    if ids == [] then Some([])
    else
      match (Subnodes(nodes, ids[0], depth), Expand(nodes, ids[1..], depth))
      case (Some(below), Some(rest)) => Some([ids[0]] + below + rest)
      case _ => None
  }

  ghost predicate Edge(nodes: Nodes, a: Id, b: Id) {
    a in nodes && HasSubitem(nodes[a], b)
  }

  lemma {:induction false} EdgesAreSubitems(nodes: Nodes, a: Id)
    requires a in nodes
    ensures forall b :: Edge(nodes, a, b) <==> b in Subitems(nodes[a])
  {
    forall b ensures Edge(nodes, a, b) <==> b in Subitems(nodes[a]) {
      SubitemsOccur(nodes[a], b);
    }
  }

  /** A walk along subitems: every element but the last is registered. */
  ghost predicate Walk(nodes: Nodes, p: seq<Id>) {
    p != [] && forall i :: 0 <= i < |p| - 1 ==> Edge(nodes, p[i], p[i + 1])
  }

  ghost predicate WalkFrom(nodes: Nodes, p: seq<Id>, a: Id) {
    Walk(nodes, p) && p[0] == a
  }

  ghost predicate WalkFromAny(nodes: Nodes, p: seq<Id>, ids: seq<Id>) {
    Walk(nodes, p) && p[0] in ids
  }

  /** At least one step leads from `a` to `b`. */
  ghost predicate Reaches(nodes: Nodes, a: Id, b: Id) {
    exists p :: WalkFrom(nodes, p, a) && |p| > 1 && p[|p| - 1] == b
  }

  ghost predicate Below(nodes: Nodes, a: Id, b: Id) {
    a == b || Reaches(nodes, a, b)
  }

  lemma {:induction false} Step(nodes: Nodes, a: Id, p: seq<Id>)
    requires p != [] && Edge(nodes, a, p[0]) && Walk(nodes, p)
    ensures WalkFrom(nodes, [a] + p, a) && Reaches(nodes, a, p[|p| - 1])
  {
    var q := [a] + p;
    forall i | 0 <= i < |q| - 1 ensures Edge(nodes, q[i], q[i + 1]) {
      if i > 0 {
        assert Edge(nodes, p[i - 1], p[i - 1 + 1]);
      }
    }
  }

  lemma {:induction false} Tail(nodes: Nodes, p: seq<Id>)
    requires Walk(nodes, p) && |p| > 1
    ensures Edge(nodes, p[0], p[1]) && WalkFrom(nodes, p[1..], p[1])
  {
    assert Edge(nodes, p[0], p[0 + 1]);
    forall i | 0 <= i < |p[1..]| - 1 ensures Edge(nodes, p[1..][i], p[1..][i + 1]) {
      assert Edge(nodes, p[i + 1], p[i + 1 + 1]);
    }
  }

  lemma {:induction false} Part(nodes: Nodes, p: seq<Id>, i: nat, j: nat)
    requires Walk(nodes, p) && i < j < |p|
    ensures Reaches(nodes, p[i], p[j])
  {
    var q := p[i..j + 1];
    forall k | 0 <= k < |q| - 1 ensures Edge(nodes, q[k], q[k + 1]) {
      assert Edge(nodes, p[i + k], p[i + k + 1]);
    }
    assert WalkFrom(nodes, q, p[i]);
  }

  lemma {:induction false} Transitive(nodes: Nodes, a: Id, b: Id, c: Id)
    requires Reaches(nodes, a, b) && Reaches(nodes, b, c)
    ensures Reaches(nodes, a, c)
  {
    var p :| WalkFrom(nodes, p, a) && |p| > 1 && p[|p| - 1] == b;
    var q :| WalkFrom(nodes, q, b) && |q| > 1 && q[|q| - 1] == c;
    Join(nodes, p, q);
  }

  lemma {:induction false} Join(nodes: Nodes, p: seq<Id>, q: seq<Id>)
    requires Walk(nodes, p) && Walk(nodes, q) && p[|p| - 1] == q[0]
    ensures WalkFrom(nodes, p + q[1..], p[0]) && (p + q[1..])[|p + q[1..]| - 1] == q[|q| - 1]
  {
    var r := p + q[1..];
    forall k | 0 <= k < |r| - 1 ensures Edge(nodes, r[k], r[k + 1]) {
      if k < |p| - 1 {
        assert Edge(nodes, p[k], p[k + 1]);
      } else {
        var j := k - (|p| - 1);
        assert Edge(nodes, q[j], q[j + 1]);
      }
    }
  }

  // ---------------------------------------------------------------- when the listing succeeds

  /** The listing needs more than `depth` nested calls exactly when a walk has `depth` steps. */
  lemma {:induction false} FailsOnLongWalk(nodes: Nodes, id: Id, depth: nat)
    ensures Subnodes(nodes, id, depth).None? <==> exists p :: WalkFrom(nodes, p, id) && |p| == depth + 1
    decreases depth, 0, 0
  {
    if depth == 0 {
      assert WalkFrom(nodes, [id], id);
    } else {
      hide HasSubitem, Subitems;
      if id in nodes {
        EdgesAreSubitems(nodes, id);
        ExpandFails(nodes, Subitems(nodes[id]), depth - 1);
        if Subnodes(nodes, id, depth).None? {
          var p :| WalkFromAny(nodes, p, Subitems(nodes[id])) && |p| == depth;
          Step(nodes, id, p);
          assert WalkFrom(nodes, [id] + p, id) && |[id] + p| == depth + 1;
        }
      }
      forall p | WalkFrom(nodes, p, id) && |p| == depth + 1 ensures Subnodes(nodes, id, depth).None? {
        Tail(nodes, p);
        assert Edge(nodes, id, p[1]);
        assert WalkFromAny(nodes, p[1..], Subitems(nodes[id]));
      }
    }
  }

  lemma {:induction false} ExpandFails(nodes: Nodes, ids: seq<Id>, depth: nat)
    ensures Expand(nodes, ids, depth).None? <==> exists p :: WalkFromAny(nodes, p, ids) && |p| == depth + 1
    decreases depth, 1, |ids|
  {
    hide Walk;
    if ids != [] {
      FailsOnLongWalk(nodes, ids[0], depth);
      ExpandFails(nodes, ids[1..], depth);
      if Subnodes(nodes, ids[0], depth).None? {
        var p :| WalkFrom(nodes, p, ids[0]) && |p| == depth + 1;
        assert WalkFromAny(nodes, p, ids);
      } else if Expand(nodes, ids[1..], depth).None? {
        var p :| WalkFromAny(nodes, p, ids[1..]) && |p| == depth + 1;
        assert WalkFromAny(nodes, p, ids);
      }
    }
  }

  /** Some id at or below this one is below itself. */
  ghost predicate CycleBelow(nodes: Nodes, id: Id) {
    exists c :: Below(nodes, id, c) && Reaches(nodes, c, c)
  }

  lemma {:induction false} LongWalkRepeats(nodes: Nodes, p: seq<Id>)
    requires Walk(nodes, p) && |p| > |nodes| + 1
    ensures CycleBelow(nodes, p[0])
  {
    var s := p[..|p| - 1];
    forall x | x in s ensures x in nodes.Keys {
      var i :| 0 <= i < |s| && s[i] == x;
      assert Edge(nodes, p[i], p[i + 1]);
    }
    if Distinct(s) {
      DistinctBound(s, nodes.Keys);
      assert false;
    }
    var i, j :| 0 <= i < j < |s| && s[i] == s[j];
    Part(nodes, p, i, j);
    if i > 0 {
      Part(nodes, p, 0, i);
    }
    assert Below(nodes, p[0], p[i]) && Reaches(nodes, p[i], p[i]);
  }

  lemma {:induction false} CycleWalks(nodes: Nodes, c: Id, n: nat) returns (p: seq<Id>)
    requires Reaches(nodes, c, c)
    ensures WalkFrom(nodes, p, c) && |p| == n + 1
  {
    var loop :| WalkFrom(nodes, loop, c) && |loop| > 1 && loop[|loop| - 1] == c;
    if n == 0 {
      p := [c];
    } else {
      // one turn of the cycle and a shorter walk, cut to the length asked for
      var rest := CycleWalks(nodes, c, n - 1);
      Join(nodes, loop, rest);
      var q := loop + rest[1..];
      p := q[..n + 1];
      forall k | 0 <= k < |p| - 1 ensures Edge(nodes, p[k], p[k + 1]) {
        assert Edge(nodes, q[k], q[k + 1]);
      }
    }
  }

  lemma {:induction false} LongerWalks(nodes: Nodes, id: Id, n: nat)
    requires CycleBelow(nodes, id)
    ensures exists p :: WalkFrom(nodes, p, id) && |p| == n + 1
  {
    var c :| Below(nodes, id, c) && Reaches(nodes, c, c);
    var turns := CycleWalks(nodes, c, n);
    if c != id {
      var lead :| WalkFrom(nodes, lead, id) && |lead| > 1 && lead[|lead| - 1] == c;
      Join(nodes, lead, turns);
      var q := lead + turns[1..];
      var p := q[..n + 1];
      forall k | 0 <= k < |p| - 1 ensures Edge(nodes, p[k], p[k + 1]) {
        assert Edge(nodes, q[k], q[k + 1]);
      }
      assert WalkFrom(nodes, p, id);
    }
  }

  /** The recursive listing terminates exactly when nothing at or below the node is below
      itself; then one nested call more than there are registered nodes is enough. */
  lemma {:induction false} ListingTerminates(nodes: Nodes, id: Id)
    ensures CycleBelow(nodes, id) ==> forall depth :: Subnodes(nodes, id, depth).None?
    ensures !CycleBelow(nodes, id) ==> forall depth :: depth > |nodes| ==> Subnodes(nodes, id, depth).Some?
  {
    if CycleBelow(nodes, id) {
      forall depth: nat ensures Subnodes(nodes, id, depth).None? {
        LongerWalks(nodes, id, depth);
        FailsOnLongWalk(nodes, id, depth);
      }
    } else {
      forall depth: nat | depth > |nodes| ensures Subnodes(nodes, id, depth).Some? {
        FailsOnLongWalk(nodes, id, depth);
        if Subnodes(nodes, id, depth).None? {
          var p :| WalkFrom(nodes, p, id) && |p| == depth + 1;
          LongWalkRepeats(nodes, p);
          assert false;
        }
      }
    }
  }

  // ---------------------------------------------------------------- what the listing holds

  lemma {:induction false} ListedIsReached(nodes: Nodes, id: Id, depth: nat, x: Id)
    requires Subnodes(nodes, id, depth).Some? && x in Subnodes(nodes, id, depth).value
    ensures Reaches(nodes, id, x)
    decreases depth, 0, 0
  {
    hide HasSubitem, Subitems;
    if id in nodes {
      EdgesAreSubitems(nodes, id);
      ExpandReached(nodes, Subitems(nodes[id]), depth - 1, x);
      var a :| a in Subitems(nodes[id]) && Below(nodes, a, x);
      if a == x {
        Step(nodes, id, [x]);
      } else {
        var p :| WalkFrom(nodes, p, a) && |p| > 1 && p[|p| - 1] == x;
        Step(nodes, id, p);
      }
    }
  }

  lemma {:induction false} ExpandReached(nodes: Nodes, ids: seq<Id>, depth: nat, x: Id)
    requires Expand(nodes, ids, depth).Some? && x in Expand(nodes, ids, depth).value
    ensures exists a :: a in ids && Below(nodes, a, x)
    decreases depth, 1, |ids|
  {
    hide Reaches;
    if ids != [] {
      var below, rest := Subnodes(nodes, ids[0], depth).value, Expand(nodes, ids[1..], depth).value;
      if x == ids[0] {
        assert Below(nodes, ids[0], x);
      } else if x in below {
        ListedIsReached(nodes, ids[0], depth, x);
        assert Below(nodes, ids[0], x);
      } else {
        ExpandReached(nodes, ids[1..], depth, x);
      }
    }
  }

  lemma {:induction false} ReachedIsListed(nodes: Nodes, depth: nat, p: seq<Id>)
    requires Walk(nodes, p) && |p| > 1 && Subnodes(nodes, p[0], depth).Some?
    ensures p[|p| - 1] in Subnodes(nodes, p[0], depth).value
    decreases depth
  {
    hide HasSubitem, Subitems;
    Tail(nodes, p);
    EdgesAreSubitems(nodes, p[0]);
    var ids := Subitems(nodes[p[0]]);
    ExpandHolds(nodes, ids, depth - 1, p[1]);
    if |p| > 2 {
      ReachedIsListed(nodes, depth - 1, p[1..]);
    }
  }

  lemma {:induction false} ExpandHolds(nodes: Nodes, ids: seq<Id>, depth: nat, a: Id)
    requires Expand(nodes, ids, depth).Some? && a in ids
    ensures a in Expand(nodes, ids, depth).value && Subnodes(nodes, a, depth).Some?
    ensures forall x :: x in Subnodes(nodes, a, depth).value ==> x in Expand(nodes, ids, depth).value
    decreases |ids|
  {
    if a != ids[0] {
      ExpandHolds(nodes, ids[1..], depth, a);
    }
  }

  /** The listing holds exactly the ids reached along subitems of registered nodes. */
  lemma {:induction false} ListingIsExact(nodes: Nodes, id: Id, depth: nat)
    requires Subnodes(nodes, id, depth).Some?
    ensures forall x :: x in Subnodes(nodes, id, depth).value <==> Reaches(nodes, id, x)
  {
    hide Subnodes, Walk;
    forall x ensures x in Subnodes(nodes, id, depth).value <==> Reaches(nodes, id, x) {
      if x in Subnodes(nodes, id, depth).value {
        ListedIsReached(nodes, id, depth, x);
      }
      if Reaches(nodes, id, x) {
        var p :| WalkFrom(nodes, p, id) && |p| > 1 && p[|p| - 1] == x;
        ReachedIsListed(nodes, depth, p);
      }
    }
  }

  // ---------------------------------------------------------------- what a release removes

  /** The entry goes when these nodes are released: one of them, or below one of them. */
  ghost predicate Doomed(nodes: Nodes, ids: seq<Id>, x: Id) {
    x !in LOCKED && exists a :: a in ids && Below(nodes, a, x)
  }

  ghost function Survivors(nodes: Nodes, ids: seq<Id>): Nodes {
    map x | x in nodes && !Doomed(nodes, ids, x) :: nodes[x]
  }

  lemma {:induction false} WalkInLarger(small: Nodes, large: Nodes, a: Id, x: Id)
    requires forall k :: k in small ==> k in large && small[k] == large[k]
    requires Below(small, a, x)
    ensures Below(large, a, x)
  {
    if a != x {
      var p :| WalkFrom(small, p, a) && |p| > 1 && p[|p| - 1] == x;
      forall i | 0 <= i < |p| - 1 ensures Edge(large, p[i], p[i + 1]) {
        assert Edge(small, p[i], p[i + 1]);
      }
      assert WalkFrom(large, p, a);
    }
  }

  /** A walk that ends at a survivor runs through survivors. */
  lemma {:induction false} WalkSurvives(nodes: Nodes, gone: seq<Id>, b: Id, x: Id)
    requires Below(nodes, b, x) && !Doomed(nodes, gone, x) && x !in LOCKED
    ensures Below(Survivors(nodes, gone), b, x)
  {
    if b != x {
      var p :| WalkFrom(nodes, p, b) && |p| > 1 && p[|p| - 1] == x;
      forall i | 0 <= i < |p| - 1 ensures Edge(Survivors(nodes, gone), p[i], p[i + 1]) {
        assert Edge(nodes, p[i], p[i + 1]);
        if Doomed(nodes, gone, p[i]) {
          var a :| a in gone && Below(nodes, a, p[i]);
          Part(nodes, p, i, |p| - 1);
          if a != p[i] {
            Transitive(nodes, a, p[i], x);
          }
          assert false;
        }
      }
      assert WalkFrom(Survivors(nodes, gone), p, b);
    }
  }

  /** Releasing more nodes from what a release left is releasing them together, although the
      later listing runs over the smaller table. */
  lemma {:induction false} ReleasesCompose(nodes: Nodes, gone: seq<Id>, b: Id)
    ensures Survivors(Survivors(nodes, gone), [b]) == Survivors(nodes, gone + [b])
  {
    hide Below;
    var left := Survivors(nodes, gone);
    forall x | x in left && x !in LOCKED
      ensures Doomed(left, [b], x) <==> Doomed(nodes, gone + [b], x)
    {
      if Below(left, b, x) {
        WalkInLarger(left, nodes, b, x);
        assert b in gone + [b];
      }
      if Doomed(nodes, gone + [b], x) {
        var a :| a in gone + [b] && Below(nodes, a, x);
        assert a == b;
        WalkSurvives(nodes, gone, b, x);
        assert b in [b];
      }
    }
    forall x | x in nodes && Doomed(nodes, gone, x) ensures Doomed(nodes, gone + [b], x) {
      var a :| a in gone && Below(nodes, a, x);
      assert a in gone + [b];
    }
  }

  // ---------------------------------------------------------------- the engine

  /** `DefaultLockedDict`: the entries it was created with can be neither replaced nor removed. */
  class LockedDict {
    const defaults: set<Id>
    var data: Nodes

    constructor (defaultData: Nodes)
      ensures defaults == defaultData.Keys && data == defaultData
    {
      defaults := defaultData.Keys;
      data := defaultData;
    }

    method SetItem(key: Id, value: Node)
      modifies this
      ensures data == if key in defaults then old(data) else old(data)[key := value]
    {
      if key in defaults {
        return;
      }
      data := data[key := value];
    }

    /** `pop(key, None)`. */
    method Pop(key: Id)
      modifies this
      ensures data == if key in defaults then old(data) else old(data) - {key}
    {
      if key in defaults {
        return;
      }
      data := data - {key};
    }
  }

  class LightEngine {
    const nodes: LockedDict

    ghost predicate Valid()
      reads this, nodes
    {
      nodes.defaults == LOCKED && LOCKED <= nodes.data.Keys
    }

    constructor ()
      ensures Valid() && fresh(nodes)
      ensures nodes.data == map[START := Node(START, []), END := Node(END, [])]
    {
      var table := map[START := Node(START, []), END := Node(END, [])];
      nodes := new LockedDict(table);
    }

    /** The memo table of `build_node`: `built` is what the builder makes of an unknown id. */
    method BuildNode(id: Id, built: Node) returns (r: Node)
      requires Valid()
      modifies nodes
      ensures Valid() && id in nodes.data && r == nodes.data[id]
      ensures nodes.data == if id in old(nodes.data) then old(nodes.data) else old(nodes.data)[id := built]
    {
      if id !in nodes.data {
        nodes.SetItem(id, built);
      }
      r := nodes.data[id];
    }

    /** `release_node`, with room for `limit` nested calls; `done` is how many were released. */
    method ReleaseNode(ids: seq<Id>, limit: nat) returns (done: nat)
      requires Valid() && "" !in ids
      modifies nodes
      ensures Valid() && done <= |ids|
      ensures nodes.data == Survivors(old(nodes.data), ids[..done])
      ensures done < |ids| ==> Subnodes(nodes.data, ids[done], limit).None?
      ensures limit > |old(nodes.data)| && (forall a :: a in ids ==> !CycleBelow(old(nodes.data), a)) ==> done == |ids|
    {
      done := 0;
      ghost var before := nodes.data;
      SurvivorsOfNone(before);
      while done < |ids|
        invariant Valid() && done <= |ids|
        invariant nodes.data == Survivors(before, ids[..done])
      {
        var found := Subnodes(nodes.data, ids[done], limit);
        if found.None? {
          if limit > |before| {
            StillNoCycle(before, ids[..done], ids[done], limit);
          }
          return;
        }
        ListingIsExact(nodes.data, ids[done], limit);
        ReleasesCompose(before, ids[..done], ids[done]);
        assert ids[..done] + [ids[done]] == ids[..done + 1];
        ReleaseOne(ids[done], found.value, limit);
        done := done + 1;
      }
      assert ids[..done] == ids;
    }

    method ReleaseOne(id: Id, found: seq<Id>, ghost limit: nat)
      requires Valid() && Subnodes(nodes.data, id, limit) == Some(found)
      requires forall x :: x in found <==> Reaches(nodes.data, id, x)
      modifies nodes
      ensures Valid() && nodes.data == Survivors(old(nodes.data), [id])
    {
      hide Survivors, Subnodes, Reaches;
      ghost var before := nodes.data;
      var i := 0;
      while i < |found|
        invariant i <= |found| && Valid()
        invariant nodes.data == before - ((set x | x in found[..i]) - LOCKED)
      {
        if found[i] !in LOCKED {
          nodes.Pop(found[i]);
        }
        assert found[..i + 1] == found[..i] + [found[i]];
        i := i + 1;
      }
      if id !in LOCKED {
        nodes.Pop(id);
      }
      assert found[..i] == found;
      DoomedAreListed(before, id, found);
    }
  }

  lemma {:induction false} DoomedAreListed(nodes: Nodes, id: Id, found: seq<Id>)
    requires forall x :: x in found <==> Reaches(nodes, id, x)
    ensures Survivors(nodes, [id]) == nodes - ((set x | x in found) + {id} - LOCKED)
  {
    hide Reaches;
    forall x ensures Doomed(nodes, [id], x) <==> x !in LOCKED && (x == id || x in found) {
      assert id in [id];
    }
  }

  lemma {:induction false} SurvivorsOfNone(nodes: Nodes)
    ensures Survivors(nodes, []) == nodes
  {
    forall x ensures !Doomed(nodes, [], x) {
    }
  }

  lemma {:induction false} StillNoCycle(nodes: Nodes, gone: seq<Id>, id: Id, limit: nat)
    requires Subnodes(Survivors(nodes, gone), id, limit).None? && limit > |nodes|
    ensures CycleBelow(nodes, id)
  {
    var left := Survivors(nodes, gone);
    assert left.Keys <= nodes.Keys;
    assert nodes.Keys == left.Keys + (nodes.Keys - left.Keys);
    ListingTerminates(left, id);
    var c :| Below(left, id, c) && Reaches(left, c, c);
    WalkInLarger(left, nodes, id, c);
    var p :| WalkFrom(left, p, c) && |p| > 1 && p[|p| - 1] == c;
    forall i | 0 <= i < |p| - 1 ensures Edge(nodes, p[i], p[i + 1]) {
      assert Edge(left, p[i], p[i + 1]);
    }
    assert WalkFrom(nodes, p, c);
  }
}
