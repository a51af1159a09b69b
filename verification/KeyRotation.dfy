/** `KeyPool` and the retry loop of `CredentialMixin._request`, in one session.

    The pool's state is the dictionary kept for it in the session's `key_pool_state`. The
    server is an oracle: its reply to the n-th attempt of a request. */
module KeyRotation {
  import opened Sequences
  import opened StableSorting

  datatype Policy = Random | RoundRobin | PreferLastSuccess

  datatype PoolState = PoolState(failed: set<string>, rrIndex: nat, lastSuccess: Option<string>)

  const EMPTY_STATE := PoolState({}, 0, None)

  function Usable(failed: set<string>): string -> bool {
    (k: string) => k !in failed
  }

  /** The keys that have not failed authentication, in pool order. */
  function Candidates(keys: seq<string>, failed: set<string>): seq<string> {
    Filter(keys, Usable(failed))
  }

  function Rotation<T>(s: seq<T>, i: nat): seq<T>
    requires i <= |s|
  {
    s[i..] + s[..i]
  }

  /** The sort key `(k in failed, k != last)`: pairs of booleans in lexicographic order. */
  function PreferRank(failed: set<string>, last: Option<string>): string -> int {
    (k: string) => (if k in failed then 2 else 0) + (if Some(k) != last then 1 else 0)
  }

  /** `r` may be returned by `ordered_keys` in state `st`, leaving state `st'`. */
  ghost predicate MayOffer(keys: seq<string>, policy: Policy, st: PoolState, r: seq<string>, st': PoolState) {
    var c := Candidates(keys, st.failed);
    match policy
    case Random => multiset(r) == multiset(c) && st' == st
    case RoundRobin =>
      if c == [] then r == [] && st' == st
      else r == Rotation(c, st.rrIndex % |c|) && st' == st.(rrIndex := (st.rrIndex % |c| + 1) % |c|)
    case PreferLastSuccess => IsStableSort(keys, PreferRank(st.failed, st.lastSuccess), r) && st' == st
  }

  class KeyPool {
    const keys: seq<string>
    const policy: Policy
    var failed: set<string>
    var rrIndex: nat
    var lastSuccess: Option<string>

    constructor (keys: seq<string>, policy: Policy)
      ensures this.keys == keys && this.policy == policy && State() == EMPTY_STATE
    {
      this.keys, this.policy := keys, policy;
      failed, rrIndex, lastSuccess := {}, 0, None;
    }

    ghost function State(): PoolState
      reads this
    {
      PoolState(failed, rrIndex, lastSuccess)
    }

    method OrderedKeys() returns (r: seq<string>)
      modifies this
      ensures MayOffer(keys, policy, old(State()), r, State())
    {
      var candidates := Candidates(keys, failed);
      match policy {
        case Random =>
          r := Shuffle(candidates);
        case RoundRobin =>
          if candidates == [] {
            return [];
          }
          var idx := rrIndex % |candidates|;
          rrIndex := (idx + 1) % |candidates|;
          return candidates[idx..] + candidates[..idx];
        case PreferLastSuccess =>
          SortIsStable(keys, PreferRank(failed, lastSuccess));
          return Sort(keys, PreferRank(failed, lastSuccess));
      }
    }

    method ReportSuccess(key: string)
      modifies this
      ensures State() == old(State()).(lastSuccess := Some(key))
    {
      lastSuccess := Some(key);
    }

    method ReportFailure(key: string)
      modifies this
      ensures State() == old(State()).(failed := old(failed) + {key})
    {
      failed := failed + {key};
    }

    function Peek(): string
      reads this
    {
      PeekIn(keys, policy, PoolState(failed, rrIndex, lastSuccess))
    }
  }

  /** `random.shuffle`: an exchange with a random earlier place, from the end down. */
  method Shuffle(xs: seq<string>) returns (r: seq<string>)
    ensures multiset(r) == multiset(xs)
  {
    r := xs;
    var i := |xs| - 1;
    while i > 0
      invariant |r| == |xs| && i < |r|
      invariant multiset(r) == multiset(xs)
    {
      var j :| 0 <= j <= i;
      r := r[i := r[j]][j := r[i]];
      i := i - 1;
    }
  }

  /** `peek`; a missing or empty last success does not count. */
  function PeekIn(keys: seq<string>, policy: Policy, st: PoolState): string {
    var c := Candidates(keys, st.failed);
    if c == [] then ""
    else if policy == PreferLastSuccess && st.lastSuccess.Some? && st.lastSuccess.value != ""
            && st.lastSuccess.value !in st.failed
    then st.lastSuccess.value
    else c[0]
  }

  // ---------------------------------------------------------------- _request

  datatype Reply = Granted(value: int) | AuthError | OtherError(tag: int)

  datatype Outcome = Returned(value: int) | Raised(tag: int) | AllKeysExhausted

  /** One HTTP attempt: the key the loop is at, the token that went into the header, the reply. */
  datatype Attempt = Attempt(key: string, token: string, reply: Reply)

  type Server = nat -> Reply

  /** How many of the first `n` attempts the server rejects before one it does not. */
  function Rejections(server: Server, n: nat, from: nat := 0): (k: nat)
    requires from <= n
    ensures from <= k <= n && (forall i :: from <= i < k ==> server(i) == AuthError)
    ensures k < n ==> server(k) != AuthError
    decreases n - from
  {
    if from == n || server(from) != AuthError then from else Rejections(server, n, from + 1)
  }

  function Attempts(offered: seq<string>, server: Server, n: nat): (r: seq<Attempt>)
    requires n <= |offered|
  {
    seq(n, i requires 0 <= i < n => Attempt(offered[i], offered[i], server(i)))
  }

  function Elements(s: seq<string>): set<string> {
    set k | k in s
  }

  /** The state after a request that was offered these keys. */
  function StateAfter(st: PoolState, offered: seq<string>, server: Server): PoolState {
    var n := Rejections(server, |offered|);
    PoolState(st.failed + Elements(offered[..n]), st.rrIndex,
              if n < |offered| && server(n).Granted? then Some(offered[n]) else st.lastSuccess)
  }

  function ResultOf(offered: seq<string>, server: Server): Outcome {
    var n := Rejections(server, |offered|);
    if n == |offered| then AllKeysExhausted
    else match server(n)
      case Granted(v) => Returned(v)
      case OtherError(t) => Raised(t)
      case AuthError => AllKeysExhausted
  }

  /** How many attempts a request sends. */
  function Sent(offered: seq<string>, server: Server): (n: nat)
    ensures n <= |offered|
  {
    var n := Rejections(server, |offered|);
    if n < |offered| then n + 1 else n
  }

  lemma {:induction false} AttemptsSnoc(offered: seq<string>, server: Server, n: nat)
    requires n < |offered|
    ensures Attempts(offered, server, n + 1) == Attempts(offered, server, n) + [Attempt(offered[n], offered[n], server(n))]
  {
  }

  lemma {:induction false} StopsAt(server: Server, n: nat, k: nat)
    requires k <= n && (forall i :: 0 <= i < k ==> server(i) == AuthError) && (k < n ==> server(k) != AuthError)
    ensures Rejections(server, n) == k
  {
    assert k <= Rejections(server, n) <= n;
  }

  /** The reply to the key at `k` is the first that is not an authentication failure. */
  ghost predicate StopsAtKey(offered: seq<string>, server: Server, k: int) {
    0 <= k < |offered| && server(k) != AuthError && forall i :: 0 <= i < k ==> server(i) == AuthError
  }

  lemma {:induction false} OfferKeepsRecord(keys: seq<string>, policy: Policy, st: PoolState, r: seq<string>, st': PoolState)
    requires MayOffer(keys, policy, st, r, st')
    ensures st'.failed == st.failed && st'.lastSuccess == st.lastSuccess
  {
  }

  lemma {:induction false} AttemptsCount(offered: seq<string>, server: Server, n: nat)
    requires n <= |offered|
    ensures |Attempts(offered, server, n)| == n
  {
  }

  /** What a request does, in terms of the reply it stops at. */
  lemma {:induction false} RequestStops(st: PoolState, offered: seq<string>, server: Server)
    ensures forall k :: StopsAtKey(offered, server, k) ==>
      (server(k).Granted? ==>
         ResultOf(offered, server) == Returned(server(k).value)
         && StateAfter(st, offered, server).lastSuccess == Some(offered[k]))
      && (server(k).OtherError? ==>
            ResultOf(offered, server) == Raised(server(k).tag)
            && StateAfter(st, offered, server).lastSuccess == st.lastSuccess)
      && StateAfter(st, offered, server).failed == st.failed + Elements(offered[..k])
      && |Attempts(offered, server, Sent(offered, server))| == k + 1
    ensures ResultOf(offered, server) == AllKeysExhausted ==>
      StateAfter(st, offered, server).failed == st.failed + Elements(offered)
      && StateAfter(st, offered, server).lastSuccess == st.lastSuccess
      && |Attempts(offered, server, Sent(offered, server))| == |offered|
  {
    forall k | StopsAtKey(offered, server, k) ensures Rejections(server, |offered|) == k {
      StopsAt(server, |offered|, k);
    }
    assert offered[..|offered|] == offered;
    AttemptsCount(offered, server, Sent(offered, server));
  }

  /** A credential holder with an active pool, and the session-local `curr_key` table. */
  class Client {
    const pool: KeyPool
    const credentialId: string
    var currKey: map<string, string>
    var log: seq<Attempt>

    constructor (pool: KeyPool, credentialId: string, currKey: map<string, string>)
      ensures this.pool == pool && this.credentialId == credentialId && this.currKey == currKey && log == []
    {
      this.pool, this.credentialId, this.currKey := pool, credentialId, currKey;
      log := [];
    }

    function GetToken(): string
      reads this, pool
    {
      if credentialId in currKey then currKey[credentialId] else pool.Peek()
    }

    /** The body of the loop: set the key, send, report, and drop the key on every way out. */
    method TryKey(key: string, reply: Reply)
      modifies this`currKey, this`log, pool
      ensures log == old(log) + [Attempt(key, key, reply)]
      ensures currKey == old(currKey) - {credentialId}
      ensures pool.State() == match reply
        case Granted(_) => old(pool.State()).(lastSuccess := Some(key))
        case AuthError => old(pool.State()).(failed := old(pool.failed) + {key})
        case OtherError(_) => old(pool.State())
    {
      currKey := currKey[credentialId := key];
      log := log + [Attempt(key, GetToken(), reply)];
      match reply {
        case Granted(_) => pool.ReportSuccess(key);
        case AuthError => pool.ReportFailure(key);
        case OtherError(_) =>
      }
      currKey := currKey - {credentialId};
    }

    method TryKeys(offered: seq<string>, server: Server) returns (r: Outcome)
      modifies this`currKey, this`log, pool
      ensures r == ResultOf(offered, server)
      ensures pool.State() == StateAfter(old(pool.State()), offered, server)
      ensures log == old(log) + Attempts(offered, server, Sent(offered, server))
      ensures currKey == if offered == [] then old(currKey) else old(currKey) - {credentialId}
    {
      var i := 0;
      while i < |offered|
        invariant i <= |offered| && forall j :: 0 <= j < i ==> server(j) == AuthError
        invariant pool.State() == old(pool.State()).(failed := old(pool.failed) + Elements(offered[..i]))
        invariant log == old(log) + Attempts(offered, server, i)
        invariant currKey == if i == 0 then old(currKey) else old(currKey) - {credentialId}
      {
        TryKey(offered[i], server(i));
        AttemptsSnoc(offered, server, i);
        if server(i) != AuthError {
          StopsAt(server, |offered|, i);
          return if server(i).Granted? then Returned(server(i).value) else Raised(server(i).tag);
        }
        assert offered[..i + 1] == offered[..i] + [offered[i]];
        i := i + 1;
      }
      StopsAt(server, |offered|, i);
      assert offered[..i] == offered;
      return AllKeysExhausted;
    }

    method Request(server: Server) returns (r: Outcome, offered: seq<string>)
      modifies this`currKey, this`log, pool
      ensures exists mid ::
        (MayOffer(pool.keys, pool.policy, old(pool.State()), offered, mid)
         && pool.State() == StateAfter(mid, offered, server))
      ensures r == ResultOf(offered, server)
      ensures r == AllKeysExhausted <==> forall i :: 0 <= i < |offered| ==> server(i) == AuthError
      ensures log == old(log) + Attempts(offered, server, Sent(offered, server))
      ensures currKey == if offered == [] then old(currKey) else old(currKey) - {credentialId}
      ensures forall k :: StopsAtKey(offered, server, k) ==>
        (server(k).Granted? ==> r == Returned(server(k).value) && pool.lastSuccess == Some(offered[k]))
        && (server(k).OtherError? ==> r == Raised(server(k).tag) && pool.lastSuccess == old(pool.lastSuccess))
        && pool.failed == old(pool.failed) + Elements(offered[..k]) && |log| == |old(log)| + k + 1
      ensures r == AllKeysExhausted ==>
        pool.failed == old(pool.failed) + Elements(offered) && pool.lastSuccess == old(pool.lastSuccess)
        && |log| == |old(log)| + |offered|
    {
      offered := pool.OrderedKeys();
      ghost var mid := pool.State();
      assert mid.failed == old(pool.failed) && mid.lastSuccess == old(pool.lastSuccess) by {
        OfferKeepsRecord(pool.keys, pool.policy, old(pool.State()), offered, mid);
      }
      RequestStops(mid, offered, server);
      r := TryKeys(offered, server);
      assert MayOffer(pool.keys, pool.policy, old(pool.State()), offered, mid);
    }
  }

  // ---------------------------------------------------------------- whole sessions

  /** One request of a session: what was offered, the pool state then, the server. */
  datatype Exchange = Exchange(offered: seq<string>, mid: PoolState, server: Server)

  /** The requests can follow one another from pool state `st`, as `Request` makes them. */
  ghost predicate Session(keys: seq<string>, policy: Policy, st: PoolState, xs: seq<Exchange>)
    decreases |xs|
  {
    xs == [] ||
    (MayOffer(keys, policy, st, xs[0].offered, xs[0].mid)
     && Session(keys, policy, StateAfter(xs[0].mid, xs[0].offered, xs[0].server), xs[1..]))
  }

  /** The keys rejected by the server over a session, in order, once per rejection. */
  function AuthFailures(xs: seq<Exchange>): seq<string>
    decreases |xs|
  {
    if xs == [] then []
    else xs[0].offered[..Rejections(xs[0].server, |xs[0].offered|)] + AuthFailures(xs[1..])
  }

  lemma {:induction false} OfferedAreCandidates(keys: seq<string>, policy: Policy, st: PoolState, r: seq<string>, st': PoolState)
    requires policy != PreferLastSuccess && MayOffer(keys, policy, st, r, st')
    ensures multiset(r) == multiset(Candidates(keys, st.failed)) && st'.failed == st.failed
  {
    var c := Candidates(keys, st.failed);
    if policy == RoundRobin && c != [] {
      var i := st.rrIndex % |c|;
      assert c == c[..i] + c[i..];
    }
  }

  lemma {:induction false} RepeatedTwice<T(!new)>(s: seq<T>, i: nat, j: nat)
    requires i < j < |s| && s[i] == s[j]
    ensures multiset(s)[s[i]] >= 2
  {
    assert s == s[..i] + [s[i]] + s[i + 1..j] + [s[j]] + s[j + 1..];
  }

  lemma {:induction false} DistinctOnce<T(!new)>(s: seq<T>, x: T)
    requires Distinct(s)
    ensures multiset(s)[x] <= 1
  {
    if s != [] {
      assert s == [s[0]] + s[1..];
      DistinctOnce(s[1..], x);
      forall y | y in s[1..] ensures y != s[0] {
        var i :| 0 <= i < |s[1..]| && s[1..][i] == y;
        assert y == s[i + 1];
      }
    }
  }

  lemma {:induction false} DistinctPermutation<T(!new)>(r: seq<T>, c: seq<T>)
    requires Distinct(c) && multiset(r) == multiset(c)
    ensures Distinct(r)
  {
    forall i, j | 0 <= i < j < |r| ensures r[i] != r[j] {
      if r[i] == r[j] {
        RepeatedTwice(r, i, j);
        DistinctOnce(c, r[i]);
      }
    }
  }

  lemma {:induction false} ConcatDistinct<T(!new)>(a: seq<T>, b: seq<T>)
    requires Distinct(a) && Distinct(b) && forall x :: x in b ==> x !in a
    ensures Distinct(a + b)
  {
    forall i, j | 0 <= i < j < |a + b| ensures (a + b)[i] != (a + b)[j] {
      if i < |a| <= j {
        assert (a + b)[j] in b;
      }
    }
  }

  /** Under RANDOM and ROUND_ROBIN a key that fails authentication is not offered again in
      the session: over any sequence of requests each key fails at most once. */
  lemma {:induction false} EachKeyFailsOnce(keys: seq<string>, policy: Policy, st: PoolState, xs: seq<Exchange>)
    requires policy != PreferLastSuccess && Distinct(keys) && Session(keys, policy, st, xs)
    ensures Distinct(AuthFailures(xs))
    ensures forall k :: k in AuthFailures(xs) ==> k in keys && k !in st.failed
    decreases |xs|
  {
    if xs != [] {
      var x := xs[0];
      var n := Rejections(x.server, |x.offered|);
      var rejected := x.offered[..n];
      OfferedAreCandidates(keys, policy, st, x.offered, x.mid);
      FilterDistinct(keys, Usable(st.failed));
      DistinctPermutation(x.offered, Candidates(keys, st.failed));
      forall k | k in rejected ensures k in keys && k !in st.failed {
        assert k in multiset(x.offered);
      }
      EachKeyFailsOnce(keys, policy, StateAfter(x.mid, x.offered, x.server), xs[1..]);
      ConcatDistinct(rejected, AuthFailures(xs[1..]));
    }
  }

  lemma {:induction false} FailuresBounded(keys: seq<string>, policy: Policy, xs: seq<Exchange>)
    requires policy != PreferLastSuccess && Distinct(keys) && Session(keys, policy, EMPTY_STATE, xs)
    ensures |AuthFailures(xs)| <= |keys|
  {
    EachKeyFailsOnce(keys, policy, EMPTY_STATE, xs);
    DistinctBound(AuthFailures(xs), set k | k in keys);
    SetOfSeqBound(keys);
  }

  /** A request in which the server rejects everything it is offered. */
  function AllRejected(offered: seq<string>, mid: PoolState): Exchange {
    Exchange(offered, mid, n => AuthError)
  }

  lemma {:induction false} AllRejectedFails(offered: seq<string>, mid: PoolState, rest: seq<Exchange>)
    ensures AuthFailures([AllRejected(offered, mid)] + rest) == offered + AuthFailures(rest)
    ensures StateAfter(mid, offered, AllRejected(offered, mid).server) ==
      mid.(failed := mid.failed + Elements(offered))
  {
    var x := AllRejected(offered, mid);
    StopsAt(x.server, |offered|, |offered|);
    assert ([x] + rest)[1..] == rest;
    assert offered[..|offered|] == offered;
  }

  /** In a new session the keys may be offered as they are. */
  lemma {:induction false} OfferedFirst(keys: seq<string>, policy: Policy) returns (mid: PoolState)
    requires policy != PreferLastSuccess && keys != []
    ensures MayOffer(keys, policy, EMPTY_STATE, keys, mid)
  {
    FilterAll(keys, Usable({}));
    assert Rotation(keys, 0) == keys;
    mid := if policy == RoundRobin then EMPTY_STATE.(rrIndex := 1 % |keys|) else EMPTY_STATE;
  }

  lemma {:induction false} DuplicatesFailTwice(keys: seq<string>, policy: Policy)
    requires policy != PreferLastSuccess && !Distinct(keys)
    ensures exists xs :: Session(keys, policy, EMPTY_STATE, xs) && !Distinct(AuthFailures(xs))
  {
    var mid := OfferedFirst(keys, policy);
    hide MayOffer;
    AllRejectedFails(keys, mid, []);
    var xs := [AllRejected(keys, mid)];
    assert xs == [AllRejected(keys, mid)] + [] && xs[1..] == [];
    assert AuthFailures(xs) == keys;
    assert Session(keys, policy, EMPTY_STATE, xs);
  }

  lemma {:induction false} TwoRejectedRequests(keys: seq<string>, first: seq<string>, second: seq<string>, st: PoolState)
    requires IsStableSort(keys, PreferRank({}, None), first)
    requires st == EMPTY_STATE.(failed := Elements(first))
    requires IsStableSort(keys, PreferRank(st.failed, None), second)
    ensures exists xs :: Session(keys, PreferLastSuccess, EMPTY_STATE, xs) && AuthFailures(xs) == first + second
  {
    var x, y := AllRejected(first, EMPTY_STATE), AllRejected(second, st);
    var xs := [x] + [y];
    AllRejectedFails(first, EMPTY_STATE, [y]);
    AllRejectedFails(second, st, []);
    assert EMPTY_STATE.failed + Elements(first) == Elements(first);
    assert [y] + [] == [y] && xs[1..] == [y] && [y][1..] == [];
    assert Session(keys, PreferLastSuccess, StateAfter(st, second, y.server), []);
    assert Session(keys, PreferLastSuccess, st, [y]);
    assert Session(keys, PreferLastSuccess, EMPTY_STATE, xs);
  }

  lemma {:induction false} PreferRetriesFailedKeys(keys: seq<string>)
    requires keys != []
    ensures exists xs :: Session(keys, PreferLastSuccess, EMPTY_STATE, xs) && !Distinct(AuthFailures(xs))
  {
    var first := Sort(keys, PreferRank({}, None));
    var st := EMPTY_STATE.(failed := Elements(first));
    var second := Sort(keys, PreferRank(st.failed, None));
    SortIsStable(keys, PreferRank({}, None));
    SortIsStable(keys, PreferRank(st.failed, None));
    TwoRejectedRequests(keys, first, second, st);
    var xs :| Session(keys, PreferLastSuccess, EMPTY_STATE, xs) && AuthFailures(xs) == first + second;
    SharedRepeats(first, second);
  }

  lemma {:induction false} SharedRepeats(a: seq<string>, b: seq<string>)
    requires a != [] && multiset(a) == multiset(b)
    ensures !Distinct(a + b)
  {
    assert a[0] in multiset(b);
    var j :| 0 <= j < |b| && b[j] == a[0];
    assert (a + b)[0] == (a + b)[|a| + j];
  }

  /** No key is ever rejected twice in a session, whatever the server does, exactly when the
      pool is empty, or its keys are distinct and the policy is not PREFER_LAST_SUCCESS. */
  lemma {:induction false} FailOnceIff(keys: seq<string>, policy: Policy)
    ensures (forall xs :: Session(keys, policy, EMPTY_STATE, xs) ==> Distinct(AuthFailures(xs)))
      <==> keys == [] || (policy != PreferLastSuccess && Distinct(keys))
  {
    if policy == PreferLastSuccess {
      if keys != [] {
        PreferRetriesFailedKeys(keys);
      } else {
        forall xs | Session(keys, policy, EMPTY_STATE, xs) ensures Distinct(AuthFailures(xs)) {
          EmptyPoolNeverFails(policy, EMPTY_STATE, xs);
        }
      }
    } else if !Distinct(keys) {
      DuplicatesFailTwice(keys, policy);
    } else {
      forall xs | Session(keys, policy, EMPTY_STATE, xs) ensures Distinct(AuthFailures(xs)) {
        EachKeyFailsOnce(keys, policy, EMPTY_STATE, xs);
      }
    }
  }

  lemma {:induction false} EmptyPoolNeverFails(policy: Policy, st: PoolState, xs: seq<Exchange>)
    requires policy == PreferLastSuccess && Session([], policy, st, xs)
    ensures AuthFailures(xs) == []
    decreases |xs|
  {
    if xs != [] {
      StableSortUnique([], PreferRank(st.failed, st.lastSuccess), xs[0].offered);
      EmptyPoolNeverFails(policy, StateAfter(xs[0].mid, xs[0].offered, xs[0].server), xs[1..]);
    }
  }

  // ---------------------------------------------------------------- the selection policies

  /** The keys put first by `n` successive ROUND_ROBIN calls while no key fails. */
  function FirstKeys(c: seq<string>, rrIndex: nat, n: nat): seq<string>
    requires c != []
    decreases n
  {
    if n == 0 then [] else [c[rrIndex % |c|]] + FirstKeys(c, (rrIndex % |c| + 1) % |c|, n - 1)
  }

  /** The `n` keys that follow position `i` when `c` is read in a circle. */
  function Circle(c: seq<string>, i: nat, n: nat): seq<string>
    requires i < |c| && n <= |c|
  {
    (c + c)[i..i + n]
  }

  lemma {:induction false} ModStep(i: nat, m: nat)
    requires i < m
    ensures i % m == i && (i + 1) % m == if i + 1 < m then i + 1 else 0
  {
  }

  lemma {:induction false} FirstKeysWalk(c: seq<string>, i: nat, n: nat)
    requires c != [] && i < |c| && n <= |c|
    ensures FirstKeys(c, i, n) == Circle(c, i, n)
    decreases n
  {
    if n > 0 {
      var next := if i + 1 < |c| then i + 1 else 0;
      ModStep(i, |c|);
      FirstKeysWalk(c, next, n - 1);
      CircleStep(c, i, n);
    }
  }

  lemma {:induction false} CircleStep(c: seq<string>, i: nat, n: nat)
    requires i < |c| && 0 < n <= |c|
    ensures Circle(c, i, n) == [c[i]] + Circle(c, if i + 1 < |c| then i + 1 else 0, n - 1)
  {
  }

  /** A call of `ordered_keys`: the pool state before it, what it offers, and the state after it. */
  datatype Offer = Offer(before: PoolState, keys: seq<string>, after: PoolState)

  /** ROUND_ROBIN calls that follow one another with no failure reported between them; successes
      may be. */
  ghost predicate Successive(keys: seq<string>, offers: seq<Offer>) {
    (forall i :: 0 <= i < |offers| ==> MayOffer(keys, RoundRobin, offers[i].before, offers[i].keys, offers[i].after))
    && forall i :: 0 < i < |offers| ==> SamePlace(offers[i - 1].after, offers[i].before)
  }

  predicate SamePlace(st: PoolState, st': PoolState) {
    st.failed == st'.failed && st.rrIndex == st'.rrIndex
  }

  /** The keys put first. */
  function Firsts(offers: seq<Offer>): seq<string> {
    if offers == [] then []
    else (if offers[0].keys == [] then [] else [offers[0].keys[0]]) + Firsts(offers[1..])
  }

  lemma {:induction false} OfferedByTurn(keys: seq<string>, o: Offer)
    requires MayOffer(keys, RoundRobin, o.before, o.keys, o.after) && Candidates(keys, o.before.failed) != []
    ensures var c := Candidates(keys, o.before.failed); var i := o.before.rrIndex % |c|;
      o.keys != [] && o.keys[0] == c[i] && o.after.failed == o.before.failed && o.after.rrIndex == (i + 1) % |c|
  {
    hide Candidates;
  }

  lemma {:induction false} FirstsWalk(keys: seq<string>, offers: seq<Offer>)
    requires Successive(keys, offers) && offers != [] && Candidates(keys, offers[0].before.failed) != []
    ensures Firsts(offers) == FirstKeys(Candidates(keys, offers[0].before.failed), offers[0].before.rrIndex, |offers|)
    decreases |offers|
  {
    hide Candidates, MayOffer;
    var rest := offers[1..];
    OfferedByTurn(keys, offers[0]);
    if rest != [] {
      assert SamePlace(offers[1 - 1].after, offers[1].before);
      forall i | 0 < i < |rest| ensures SamePlace(rest[i - 1].after, rest[i].before) {
        assert SamePlace(offers[i + 1 - 1].after, offers[i + 1].before);
      }
      FirstsWalk(keys, rest);
    }
  }

  /** As many successive calls as there are usable keys put each of them first exactly once,
      wherever earlier calls and failures have left the index. */
  lemma {:induction false} RoundRobinIsFair(keys: seq<string>, offers: seq<Offer>)
    requires Successive(keys, offers) && offers != []
    requires |offers| == |Candidates(keys, offers[0].before.failed)|
    ensures var c := Candidates(keys, offers[0].before.failed);
      Firsts(offers) == Rotation(c, offers[0].before.rrIndex % |c|) && multiset(Firsts(offers)) == multiset(c)
  {
    hide Candidates, FirstKeys;
    FirstsWalk(keys, offers);
    FirstKeysRotate(Candidates(keys, offers[0].before.failed), offers[0].before.rrIndex);
  }

  /** A request goes once round the usable keys, from the one the index points at on, and moves the
      index on by one. */
  lemma {:induction false} OfferGoesRound(keys: seq<string>, st: PoolState, r: seq<string>, st': PoolState, j: nat)
    requires MayOffer(keys, RoundRobin, st, r, st') && j < |Candidates(keys, st.failed)|
    ensures var c := Candidates(keys, st.failed); var i := st.rrIndex % |c|;
      |r| == |c| && r[j] == c[if i + j < |c| then i + j else i + j - |c|]
      && st'.rrIndex == if i + 1 < |c| then i + 1 else 0
  {
    var c := Candidates(keys, st.failed);
    ModStep(st.rrIndex % |c|, |c|);
  }

  lemma {:induction false} FirstKeysRotate(c: seq<string>, rrIndex: nat)
    requires c != []
    ensures FirstKeys(c, rrIndex, |c|) == Rotation(c, rrIndex % |c|)
    ensures multiset(Rotation(c, rrIndex % |c|)) == multiset(c)
  {
    var i := rrIndex % |c|;
    ModStep(i, |c|);
    assert FirstKeys(c, rrIndex, |c|) == FirstKeys(c, i, |c|);
    FirstKeysWalk(c, i, |c|);
    assert Circle(c, i, |c|) == c[i..] + c[..i];
    assert c == c[..i] + c[i..];
  }

  /** Under PREFER_LAST_SUCCESS a request starts with the last successful key if and only if
      that key never failed in the session, or every key did: a key that fails once and
      recovers later stays behind. */
  lemma {:induction false} LastSuccessFirst(keys: seq<string>, st: PoolState, last: string, r: seq<string>)
    requires last in keys && st.lastSuccess == Some(last)
    requires MayOffer(keys, PreferLastSuccess, st, r, st)
    ensures r != [] && (r[0] == last <==> last !in st.failed || forall k :: k in keys ==> k in st.failed)
  {
    var rank := PreferRank(st.failed, st.lastSuccess);
    assert last in Class(keys, rank, rank(last));
    assert last in Class(r, rank, rank(last));
    var i :| 0 <= i < |r| && r[i] == last;
    assert rank(r[0]) <= rank(last);
    assert r[0] in Class(r, rank, rank(r[0]));
    assert r[0] in Class(keys, rank, rank(r[0]));
    if last in st.failed && exists k :: k in keys && k !in st.failed {
      var k :| k in keys && k !in st.failed;
      assert k in Class(keys, rank, rank(k));
      assert k in Class(r, rank, rank(k));
      var j :| 0 <= j < |r| && r[j] == k;
      assert rank(r[0]) <= rank(k) < rank(last);
    }
  }

  /** `peek` previews the first key PREFER_LAST_SUCCESS would try, if no key is the empty string,
      exactly when some key has not failed; when all have, it answers with the empty string. */
  lemma {:induction false} PeekPreviewsPrefer(keys: seq<string>, st: PoolState, r: seq<string>)
    requires MayOffer(keys, PreferLastSuccess, st, r, st) && keys != []
    requires st.lastSuccess.Some? ==> st.lastSuccess.value in keys
    ensures r != []
    ensures "" !in keys ==> (PeekIn(keys, PreferLastSuccess, st) == r[0] <==> Candidates(keys, st.failed) != [])
    ensures Candidates(keys, st.failed) != [] && st.lastSuccess != Some("") ==>
      PeekIn(keys, PreferLastSuccess, st) == r[0]
  {
    var rank := PreferRank(st.failed, st.lastSuccess);
    assert keys[0] in Class(keys, rank, rank(keys[0]));
    assert keys[0] in Class(r, rank, rank(keys[0]));
    assert r[0] in Class(r, rank, rank(r[0]));
    assert r[0] in Class(keys, rank, rank(r[0]));
    if Candidates(keys, st.failed) != [] && st.lastSuccess != Some("") {
      PeekIsFirst(keys, st, r);
    }
  }

  /** Under the other policies, or without a last success, `peek` names the first key of the pool
      that has not failed, and under any policy nothing when all have. */
  lemma {:induction false} PeekFirstUsable(keys: seq<string>, policy: Policy, st: PoolState)
    ensures (forall k :: k in keys ==> k in st.failed) ==> PeekIn(keys, policy, st) == ""
    ensures (policy != PreferLastSuccess || st.lastSuccess.None?) ==>
      forall i :: 0 <= i < |keys| && keys[i] !in st.failed && (forall j :: 0 <= j < i ==> keys[j] in st.failed) ==>
        PeekIn(keys, policy, st) == keys[i]
  {
    if forall k :: k in keys ==> k in st.failed {
      FilterNone(keys, Usable(st.failed));
    }
    forall i | 0 <= i < |keys| && keys[i] !in st.failed && (forall j :: 0 <= j < i ==> keys[j] in st.failed)
      ensures Candidates(keys, st.failed) != [] && Candidates(keys, st.failed)[0] == keys[i]
    {
      FilterNone(keys[..i], Usable(st.failed));
      FilterConcat(keys[..i], keys[i..], Usable(st.failed));
      assert keys == keys[..i] + keys[i..];
    }
  }

  lemma {:induction false} PeekIsFirst(keys: seq<string>, st: PoolState, r: seq<string>)
    requires MayOffer(keys, PreferLastSuccess, st, r, st)
    requires st.lastSuccess.Some? ==> st.lastSuccess.value in keys && st.lastSuccess.value != ""
    requires Candidates(keys, st.failed) != []
    ensures r != [] && PeekIn(keys, PreferLastSuccess, st) == r[0]
  {
    var rank, c := PreferRank(st.failed, st.lastSuccess), Candidates(keys, st.failed);
    if st.lastSuccess.Some? && st.lastSuccess.value !in st.failed {
      LastSuccessFirst(keys, st, st.lastSuccess.value, r);
    } else {
      assert c[0] in c;
      FirstUsableHeads(keys, rank, st.failed);
      assert Class(r, rank, 1) == Class(keys, rank, 1);
      assert Class(r, rank, 0) == Class(keys, rank, 0);
      assert c[0] in Class(r, rank, 1);
      var i :| 0 <= i < |r| && r[i] == c[0];
      assert rank(r[0]) <= 1;
      assert r[0] in Class(r, rank, rank(r[0]));
      assert Class(r, rank, 1)[0] == r[0];
    }
  }

  lemma {:induction false} FirstUsableHeads(keys: seq<string>, rank: string -> int, failed: set<string>)
    requires forall k :: k in keys ==> (k !in failed <==> rank(k) == 1)
    ensures Class(keys, rank, 1) == Candidates(keys, failed)
  {
    if keys != [] {
      FirstUsableHeads(keys[1..], rank, failed);
    }
  }
}
