/** `ensure_token` and `_refresh_credential` for the OAuth and app credential kinds: check,
    lock, check again, acquire, store. A step system over any number of threads that share one
    credential, with a clock that never goes back and a token server that answers anything. */
module TokenRefresh {
  import opened Sequences

  type Time = real

  /** `_TOKEN_REFRESH_BUFFER`, in seconds. */
  const BUFFER: Time := 60.0

  datatype Credential = Credential(accessToken: string, expireAt: Option<Time>, refreshToken: string)

  /** A successful answer of `_acquire_credential`. */
  datatype Grant = Grant(token: string, expireAt: Option<Time>, refresh: string)

  predicate Expired(c: Credential, now: Time) {
    c.expireAt.Some? && now >= c.expireAt.value - BUFFER
  }

  predicate NeedsRefresh(c: Credential, now: Time) {
    c.accessToken == "" || Expired(c, now)
  }

  /** The credential `_refresh_credential` builds from the old one and an answer. */
  function Renewed(c: Credential, g: Grant): Credential {
    Credential(g.token, g.expireAt, if g.refresh != "" then g.refresh else c.refreshToken)
  }

  datatype Phase =
    | Idle
    | Checking(cred: Credential, readAt: Time)          // ensure_token has read self._credential
    | Wanting                                           // about to take _token_lock
    | Locked                                            // lock taken, self._credential not read yet
    | Rechecking(cred: Credential, readAt: Time)        // self._credential read under the lock
    | Acquiring(cred: Credential, began: Time)          // the token server is being asked
    | Storing(cred: Credential, began: Time, grant: Grant)
    | Saving(refresh: string)                           // stored; the refresh token may go to the file
    | Leaving(raised: bool)                             // about to release the lock

  datatype Thread = Thread(phase: Phase, calledAt: Time)

  /** A completed acquisition: what was replaced, when that was decided, what the server granted, what
      was stored, when. */
  datatype Acquisition = Acquisition(before: Credential, began: Time, grant: Grant, after: Credential, stored: Time)

  /** A call that found a usable credential: when it was called and what it read, when. */
  datatype Hit = Hit(calledAt: Time, cred: Credential, readAt: Time)

  datatype Holder = Free | HeldBy(tid: nat)

  datatype State = State(clock: Time, cred: Credential, holder: Holder, threads: seq<Thread>,
                         log: seq<Acquisition>, hits: seq<Hit>, persisted: seq<string>)

  datatype Action =
    | Tick(delta: Time)
    | CallEnsure(tid: nat)           // ensure_token
    | CallRefresh(tid: nat)          // _refresh_credential called directly, as _bootstrap_token does
    | Answer(tid: nat, grant: Grant) // the server answers
    | Fail(tid: nat)                 // the acquisition raises
    | Next(tid: nat)

  predicate UnderLock(p: Phase) {
    p.Locked? || p.Rechecking? || p.Acquiring? || p.Storing? || p.Saving? || p.Leaving?
  }

  predicate Enabled(s: State, a: Action) {
    match a
    case Tick(d) => d >= 0.0
    case CallEnsure(t) => t < |s.threads| && s.threads[t].phase.Idle?
    case CallRefresh(t) => t < |s.threads| && s.threads[t].phase.Idle?
    case Answer(t, _) => t < |s.threads| && s.threads[t].phase.Acquiring?
    case Fail(t) => t < |s.threads| && s.threads[t].phase.Acquiring?
    case Next(t) =>
      && t < |s.threads|
      && var p := s.threads[t].phase;
         !p.Idle? && !p.Acquiring? && (p.Wanting? ==> s.holder == Free)
  }

  function Goto(s: State, t: nat, p: Phase): State
    requires t < |s.threads|
  {
    s.(threads := s.threads[t := s.threads[t].(phase := p)])
  }

  function Called(s: State, t: nat, p: Phase): State
    requires t < |s.threads|
  {
    s.(threads := s.threads[t := Thread(p, s.clock)])
  }

  function StepNext(s: State, t: nat): State
    requires Enabled(s, Next(t))
  {
    var th := s.threads[t];
    match th.phase
    case Checking(c, readAt) =>
      if NeedsRefresh(c, s.clock) then Goto(s, t, Wanting)
      else Goto(s, t, Idle).(hits := s.hits + [Hit(th.calledAt, c, readAt)])
    case Wanting => Goto(s, t, Locked).(holder := HeldBy(t))
    case Locked => Goto(s, t, Rechecking(s.cred, s.clock))
    case Rechecking(c, readAt) =>
      if NeedsRefresh(c, s.clock) then Goto(s, t, Acquiring(c, s.clock))
      else Goto(s, t, Leaving(false)).(hits := s.hits + [Hit(th.calledAt, c, readAt)])
    case Storing(c, began, g) =>
      Goto(s, t, Saving(g.refresh)).(cred := Renewed(c, g),
                                     log := s.log + [Acquisition(c, began, g, Renewed(c, g), s.clock)])
    case Saving(r) =>
      Goto(s, t, Leaving(false)).(persisted := if r != "" then s.persisted + [r] else s.persisted)
    case Leaving(_) => Goto(s, t, Idle).(holder := Free)
    case _ => s
  }

  function Apply(s: State, a: Action): State
    requires Enabled(s, a)
  {
    match a
    case Tick(d) => s.(clock := s.clock + d)
    case CallEnsure(t) => Called(s, t, Checking(s.cred, s.clock))
    case CallRefresh(t) => Called(s, t, Wanting)
    case Answer(t, g) => Goto(s, t, Storing(s.threads[t].phase.cred, s.threads[t].phase.began, g))
    case Fail(t) => Goto(s, t, Leaving(true))
    case Next(t) => StepNext(s, t)
  }

  ghost predicate Init(s: State) {
    && s.holder == Free && s.log == [] && s.hits == [] && s.persisted == []
    && forall t :: 0 <= t < |s.threads| ==> s.threads[t].phase == Idle
  }

  predicate Runs(s: State, acts: seq<Action>)
    decreases |acts|
  {
    acts == [] || (Enabled(s, acts[0]) && Runs(Apply(s, acts[0]), acts[1..]))
  }

  function After(s: State, acts: seq<Action>): State
    requires Runs(s, acts)
    decreases |acts|
  {
    if acts == [] then s else After(Apply(s, acts[0]), acts[1..])
  }

  // ---------------------------------------------------------------- the inductive invariant

  ghost predicate LockOk(s: State) {
    && (s.holder.HeldBy? ==> s.holder.tid < |s.threads|)
    && forall t :: 0 <= t < |s.threads| ==> (UnderLock(s.threads[t].phase) <==> s.holder == HeldBy(t))
  }

  /** What a thread has read is current as long as it holds the lock, and its times are past. */
  ghost predicate ThreadOk(s: State, th: Thread) {
    && (!th.phase.Idle? ==> th.calledAt <= s.clock)
    && match th.phase
    case Checking(_, readAt) => th.calledAt <= readAt <= s.clock
    case Rechecking(c, readAt) => c == s.cred && th.calledAt <= readAt <= s.clock && Since(s, readAt)
    case Acquiring(c, began) => c == s.cred && began <= s.clock && NeedsRefresh(c, began) && Since(s, began)
    case Storing(c, began, _) => c == s.cred && began <= s.clock && NeedsRefresh(c, began) && Since(s, began)
    case _ => true
  }

  /** Nothing has been stored after `when`. */
  ghost predicate Since(s: State, when: Time) {
    s.log != [] ==> s.log[|s.log| - 1].stored <= when
  }

  /** Each acquisition starts from what the one before stored, found it unusable, and began
      after it was stored. */
  ghost predicate Chained(log: seq<Acquisition>) {
    && (forall i :: 0 <= i < |log| ==> NeedsRefresh(log[i].before, log[i].began) && log[i].began <= log[i].stored)
    && (forall i :: 0 < i < |log| ==> log[i].before == log[i - 1].after && log[i - 1].stored <= log[i].began)
  }

  ghost predicate HitOk(h: Hit, clock: Time) {
    h.calledAt <= h.readAt <= clock && !NeedsRefresh(h.cred, h.readAt)
  }

  ghost predicate Inv(s: State) {
    && LockOk(s)
    && (forall t :: 0 <= t < |s.threads| ==> ThreadOk(s, s.threads[t]))
    && Chained(s.log)
    && (s.log != [] ==> s.log[|s.log| - 1].after == s.cred && s.log[|s.log| - 1].stored <= s.clock)
    && (forall i :: 0 <= i < |s.hits| ==> HitOk(s.hits[i], s.clock))
  }

  lemma {:induction false} StepKeepsLock(s: State, a: Action)
    requires Inv(s) && Enabled(s, a)
    ensures LockOk(Apply(s, a))
  {
  }

  /** The thread an action belongs to, if any, is `t`. */
  predicate Moves(a: Action, t: nat) {
    !a.Tick? && a.tid == t
  }

  lemma {:induction false} MoverOk(s: State, a: Action)
    requires Inv(s) && Enabled(s, a) && !a.Tick?
    ensures ThreadOk(Apply(s, a), Apply(s, a).threads[a.tid])
  {
    assert ThreadOk(s, s.threads[a.tid]);
  }

  lemma {:induction false} OthersOk(s: State, a: Action, t: nat)
    requires Inv(s) && Enabled(s, a) && t < |s.threads| && !Moves(a, t)
    ensures ThreadOk(Apply(s, a), Apply(s, a).threads[t])
  {
    assert ThreadOk(s, s.threads[t]);
    assert Apply(s, a).threads[t] == s.threads[t];
    if a.Next? && s.threads[a.tid].phase.Storing? {
      assert UnderLock(s.threads[a.tid].phase) && !UnderLock(s.threads[t].phase);
    } else {
      assert Apply(s, a).log == s.log && Apply(s, a).cred == s.cred && Apply(s, a).clock >= s.clock;
    }
  }

  lemma {:induction false} StepKeepsThreads(s: State, a: Action)
    requires Inv(s) && Enabled(s, a)
    ensures forall t :: 0 <= t < |Apply(s, a).threads| ==> ThreadOk(Apply(s, a), Apply(s, a).threads[t])
  {
    forall t | 0 <= t < |Apply(s, a).threads| ensures ThreadOk(Apply(s, a), Apply(s, a).threads[t]) {
      if Moves(a, t) {
        MoverOk(s, a);
      } else {
        OthersOk(s, a, t);
      }
    }
  }

  lemma {:induction false} StepKeepsLog(s: State, a: Action)
    requires Inv(s) && Enabled(s, a)
    ensures var s' := Apply(s, a);
      Chained(s'.log) && (s'.log != [] ==> s'.log[|s'.log| - 1].after == s'.cred && s'.log[|s'.log| - 1].stored <= s'.clock)
  {
    if a.Next? && s.threads[a.tid].phase.Storing? {
      var log, p := s.log, s.threads[a.tid].phase;
      assert ThreadOk(s, s.threads[a.tid]);
      ChainGrows(log, Acquisition(p.cred, p.began, p.grant, Renewed(p.cred, p.grant), s.clock));
    } else {
      assert Apply(s, a).log == s.log && Apply(s, a).cred == s.cred;
    }
  }

  lemma {:induction false} ChainGrows(log: seq<Acquisition>, a: Acquisition)
    requires Chained(log) && NeedsRefresh(a.before, a.began) && a.began <= a.stored
    requires log != [] ==> a.before == log[|log| - 1].after && log[|log| - 1].stored <= a.began
    ensures Chained(log + [a])
  {
  }

  lemma {:induction false} StepKeepsHits(s: State, a: Action)
    requires Inv(s) && Enabled(s, a)
    ensures forall i :: 0 <= i < |Apply(s, a).hits| ==> HitOk(Apply(s, a).hits[i], Apply(s, a).clock)
  {
    if a.Next? {
      assert ThreadOk(s, s.threads[a.tid]);
    }
  }

  lemma {:induction false} StepKeepsInv(s: State, a: Action)
    requires Inv(s) && Enabled(s, a)
    ensures Inv(Apply(s, a))
  {
    StepKeepsLock(s, a);
    StepKeepsThreads(s, a);
    StepKeepsLog(s, a);
    StepKeepsHits(s, a);
  }

  lemma {:induction false} RunKeepsInv(s: State, acts: seq<Action>)
    requires Inv(s) && Runs(s, acts)
    ensures Inv(After(s, acts))
    decreases |acts|
  {
    if acts != [] {
      StepKeepsInv(s, acts[0]);
      RunKeepsInv(Apply(s, acts[0]), acts[1..]);
    }
  }

  // ---------------------------------------------------------------- what is stored

  /** The answers of the server in a run. */
  function Answers(acts: seq<Action>): seq<Grant> {
    if acts == [] then []
    else (match acts[0] case Answer(_, g) => [g] case _ => []) + Answers(acts[1..])
  }

  /** The grants acquisitions have stored. */
  function Granted(log: seq<Acquisition>): seq<Grant> {
    if log == [] then [] else Granted(log[..|log| - 1]) + [log[|log| - 1].grant]
  }

  /** The phase of the thread with the lock, if there is one. */
  function OwnerPhase(s: State): Phase {
    if s.holder.HeldBy? && s.holder.tid < |s.threads| then s.threads[s.holder.tid].phase else Idle
  }

  /** A grant the server has given that is not stored yet. */
  function InHand(s: State): seq<Grant> {
    match OwnerPhase(s) case Storing(_, _, g) => [g] case _ => []
  }

  /** A refresh token that is stored and not saved to the file yet. */
  function Unsaved(s: State): seq<string> {
    match OwnerPhase(s) case Saving(r) => if r != "" then [r] else [] case _ => []
  }

  /** The refresh tokens among the grants, in order. */
  function Refreshes(log: seq<Acquisition>): seq<string> {
    if log == [] then []
    else
      var last := log[|log| - 1].grant.refresh;
      Refreshes(log[..|log| - 1]) + if last != "" then [last] else []
  }

  /** The entry holds what was granted, and the old refresh token if none was. */
  ghost predicate Stored(a: Acquisition) {
    && a.after.accessToken == a.grant.token && a.after.expireAt == a.grant.expireAt
    && (a.grant.refresh != "" ==> a.after.refreshToken == a.grant.refresh)
    && (a.grant.refresh == "" ==> a.after.refreshToken == a.before.refreshToken)
  }

  lemma {:induction false} StepStores(s: State, a: Action)
    requires Inv(s) && Enabled(s, a)
    requires forall i :: 0 <= i < |s.log| ==> Stored(s.log[i])
    ensures forall i :: 0 <= i < |Apply(s, a).log| ==> Stored(Apply(s, a).log[i])
    ensures Granted(Apply(s, a).log) + InHand(Apply(s, a)) ==
      Granted(s.log) + InHand(s) + (match a case Answer(_, g) => [g] case _ => [])
  {
    hide Stored, Granted, Refreshes;
    var u := Apply(s, a);
    if !a.Tick? {
      assert UnderLock(s.threads[a.tid].phase) <==> s.holder == HeldBy(a.tid);
    }
    if u.log != s.log {
      var entry := u.log[|s.log|];
      assert u.log == s.log + [entry];
      LogGrows(s.log, entry);
      RenewedHolds(entry);
    }
  }

  lemma {:induction false} StepSaves(s: State, a: Action)
    requires Inv(s) && Enabled(s, a) && s.persisted + Unsaved(s) == Refreshes(s.log)
    ensures Apply(s, a).persisted + Unsaved(Apply(s, a)) == Refreshes(Apply(s, a).log)
  {
    hide Granted, Refreshes, Renewed;
    var u := Apply(s, a);
    if !a.Tick? {
      assert UnderLock(s.threads[a.tid].phase) <==> s.holder == HeldBy(a.tid);
    }
    if u.log != s.log {
      assert u.log == s.log + [u.log[|s.log|]];
      LogGrows(s.log, u.log[|s.log|]);
    }
  }

  lemma {:induction false} RenewedHolds(a: Acquisition)
    requires a.after == Renewed(a.before, a.grant)
    ensures Stored(a)
  {
  }

  lemma {:induction false} LogGrows(log: seq<Acquisition>, a: Acquisition)
    ensures Granted(log + [a]) == Granted(log) + [a.grant]
    ensures Refreshes(log + [a]) == Refreshes(log) + if a.grant.refresh != "" then [a.grant.refresh] else []
  {
    assert (log + [a])[..|log|] == log;
  }

  lemma {:induction false} RunStores(s: State, acts: seq<Action>)
    requires Inv(s) && Runs(s, acts)
    requires forall i :: 0 <= i < |s.log| ==> Stored(s.log[i])
    requires s.persisted + Unsaved(s) == Refreshes(s.log)
    ensures forall i :: 0 <= i < |After(s, acts).log| ==> Stored(After(s, acts).log[i])
    ensures Granted(After(s, acts).log) + InHand(After(s, acts)) == Granted(s.log) + InHand(s) + Answers(acts)
    ensures After(s, acts).persisted + Unsaved(After(s, acts)) == Refreshes(After(s, acts).log)
    decreases |acts|
  {
    hide Inv, Apply, Enabled, Stored, InHand, Unsaved, Granted, Refreshes;
    if acts != [] {
      StepStores(s, acts[0]);
      StepSaves(s, acts[0]);
      StepKeepsInv(s, acts[0]);
      RunStores(Apply(s, acts[0]), acts[1..]);
    }
  }

  lemma {:induction false} LogStart(s: State, acts: seq<Action>)
    requires Inv(s) && Runs(s, acts)
    ensures var u := After(s, acts);
      |u.log| >= |s.log| && u.log[..|s.log|] == s.log
      && (|u.log| == |s.log| ==> u.cred == s.cred) && (|u.log| > |s.log| ==> u.log[|s.log|].before == s.cred)
    decreases |acts|
  {
    if acts != [] {
      StepLog(s, acts[0]);
      StepKeepsInv(s, acts[0]);
      hide Inv, Apply, Enabled;
      var s1, u := Apply(s, acts[0]), After(s, acts);
      LogStart(s1, acts[1..]);
      assert s1.log[..|s.log|] == s.log;
      assert u.log[..|s.log|] == u.log[..|s1.log|][..|s.log|];
      assert |s1.log| > |s.log| ==> u.log[|s.log|] == u.log[..|s1.log|][|s.log|];
    }
  }

  lemma {:induction false} StepLog(s: State, a: Action)
    requires Inv(s) && Enabled(s, a)
    ensures var u := Apply(s, a);
      (u.log == s.log && u.cred == s.cred) || (|u.log| == |s.log| + 1 && u.log[..|s.log|] == s.log && u.log[|s.log|].before == s.cred)
  {
    if !a.Tick? {
      assert ThreadOk(s, s.threads[a.tid]);
    }
  }

  // ---------------------------------------------------------------- main results

  /** What a run stores is what the server granted: the grants in the log, with one that may still be
      in hand, are the server's answers in order; each entry holds its grant's token and expiry, and
      its refresh token if it has one, else the one held before; entries follow one another from the
      first credential to the current one. */
  lemma {:induction false} GrantsAreStored(s0: State, acts: seq<Action>)
    requires Init(s0) && Runs(s0, acts)
    ensures Granted(After(s0, acts).log) + InHand(After(s0, acts)) == Answers(acts)
    ensures forall i :: 0 <= i < |After(s0, acts).log| ==>
      var a := After(s0, acts).log[i];
      a.after.accessToken == a.grant.token && a.after.expireAt == a.grant.expireAt
      && a.after.refreshToken == (if a.grant.refresh != "" then a.grant.refresh else a.before.refreshToken)
      && a.before == (if i == 0 then s0.cred else After(s0, acts).log[i - 1].after)
    ensures var log := After(s0, acts).log;
      After(s0, acts).cred == if log == [] then s0.cred else log[|log| - 1].after
  {
    RunKeepsInv(s0, acts);
    RunStores(s0, acts);
    LogStart(s0, acts);
    var log := After(s0, acts).log;
    forall i | 0 <= i < |log| ensures Stored(log[i]) && log[i].before == (if i == 0 then s0.cred else log[i - 1].after) {
    }
  }

  /** The refresh tokens saved to the file are those the server granted, in order, but for one that
      may still be about to be saved. */
  lemma {:induction false} RefreshTokensSaved(s0: State, acts: seq<Action>)
    requires Init(s0) && Runs(s0, acts)
    ensures After(s0, acts).persisted + Unsaved(After(s0, acts)) == Refreshes(After(s0, acts).log)
  {
    RunStores(s0, acts);
  }

  function IsCall(): Action -> bool {
    (a: Action) => a.CallEnsure? || a.CallRefresh?
  }

  function IsFail(): Action -> bool {
    (a: Action) => a.Fail?
  }

  /** A call that has neither found a usable credential nor stored one nor failed. */
  function Undecided(): Thread -> bool {
    (th: Thread) => th.phase.Checking? || th.phase.Wanting? || th.phase.Locked? || th.phase.Rechecking?
                    || th.phase.Acquiring? || th.phase.Storing?
  }

  lemma {:induction false} StepDecides(s: State, a: Action)
    requires Enabled(s, a)
    ensures var u := Apply(s, a);
      Count(u.threads, Undecided()) + |u.hits| + |u.log| + One(a.Fail?)
      == Count(s.threads, Undecided()) + |s.hits| + |s.log| + One(IsCall()(a))
  {
    hide Count;
    if !a.Tick? {
      var u := Apply(s, a);
      assert u.threads == s.threads[a.tid := u.threads[a.tid]];
      CountReplace(s.threads, a.tid, u.threads[a.tid], Undecided());
    }
  }

  lemma {:induction false} RunDecides(s: State, acts: seq<Action>)
    requires Runs(s, acts)
    ensures var u := After(s, acts);
      Count(u.threads, Undecided()) + |u.hits| + |u.log| + Count(acts, IsFail())
      == Count(s.threads, Undecided()) + |s.hits| + |s.log| + Count(acts, IsCall())
    decreases |acts|
  {
    if acts != [] {
      StepDecides(s, acts[0]);
      RunDecides(Apply(s, acts[0]), acts[1..]);
    }
  }

  /** Every call is undecided, found a usable credential, stored a new one, or failed. */
  lemma {:induction false} EveryCallDecided(s0: State, acts: seq<Action>)
    requires Init(s0) && Runs(s0, acts)
    ensures var u := After(s0, acts);
      Count(acts, IsCall()) == Count(u.threads, Undecided()) + |u.hits| + |u.log| + Count(acts, IsFail())
  {
    hide Runs, After;
    RunDecides(s0, acts);
    NoneUndecided(s0.threads);
  }

  lemma {:induction false} NoneUndecided(threads: seq<Thread>)
    requires forall t :: 0 <= t < |threads| ==> threads[t].phase == Idle
    ensures Count(threads, Undecided()) == 0
  {
    if threads != [] {
      NoneUndecided(threads[1..]);
    }
  }

  /** Between any two acquisitions there is a moment, after the first token was stored, at
      which exactly that token was found empty or inside the expiry buffer. */
  lemma {:induction false} AcquisitionsSeparated(s0: State, acts: seq<Action>, i: nat)
    requires Init(s0) && Runs(s0, acts) && i + 1 < |After(s0, acts).log|
    ensures var log := After(s0, acts).log;
      log[i].stored <= log[i + 1].began
      && (log[i].grant.token == ""
          || (log[i].grant.expireAt.Some? && log[i + 1].began >= log[i].grant.expireAt.value - 60.0))
  {
    RunStores(s0, acts);
    assert Stored(After(s0, acts).log[i]);
    RunKeepsInv(s0, acts);
    var log := After(s0, acts).log;
    assert log[i + 1].before == log[i].after;
  }

  function Times(n: nat, life: Time): Time {
    if n == 0 then 0.0 else Times(n - 1, life) + life
  }

  /** Every token stored was usable for at least `life` seconds. */
  ghost predicate LongLived(log: seq<Acquisition>, life: Time) {
    forall i :: 0 <= i < |log| ==>
      log[i].after.accessToken != ""
      && (log[i].after.expireAt.Some? ==> log[i].after.expireAt.value >= log[i].stored + BUFFER + life)
  }

  lemma {:induction false} ChainRate(log: seq<Acquisition>, life: Time, n: nat)
    requires Chained(log) && LongLived(log, life) && n < |log|
    ensures log[n].stored >= log[0].stored + Times(n, life)
  {
    if n > 0 {
      ChainRate(log, life, n - 1);
      assert log[n].before == log[n - 1].after && NeedsRefresh(log[n].before, log[n].began);
    }
  }

  /** With a server whose tokens stay usable for `life` seconds, n + 1 acquisitions take at
      least n times that long, however many threads call. */
  lemma {:induction false} AcquisitionRate(s0: State, acts: seq<Action>, life: Time, n: nat)
    requires Init(s0) && Runs(s0, acts)
    requires LongLived(After(s0, acts).log, life) && n < |After(s0, acts).log|
    ensures After(s0, acts).log[n].stored >= After(s0, acts).log[0].stored + Times(n, life)
  {
    RunKeepsInv(s0, acts);
    ChainRate(After(s0, acts).log, life, n);
  }

  /** A call that returns without acquiring read, at a moment inside the call, a credential
      that was non-empty and outside the expiry buffer at that moment. */
  lemma {:induction false} HitsAreFresh(s0: State, acts: seq<Action>)
    requires Init(s0) && Runs(s0, acts)
    ensures forall i :: 0 <= i < |After(s0, acts).hits| ==>
      var h := After(s0, acts).hits[i];
      h.calledAt <= h.readAt <= After(s0, acts).clock && h.cred.accessToken != ""
      && (h.cred.expireAt.Some? ==> h.readAt < h.cred.expireAt.value - 60.0)
  {
    RunKeepsInv(s0, acts);
    forall i | 0 <= i < |After(s0, acts).hits| ensures HitOk(After(s0, acts).hits[i], After(s0, acts).clock) {
    }
  }

  /** The server is asked by one thread at a time. */
  lemma {:induction false} OneAcquirer(s0: State, acts: seq<Action>, t: nat, u: nat)
    requires Init(s0) && Runs(s0, acts)
    requires t < |After(s0, acts).threads| && u < |After(s0, acts).threads|
    requires After(s0, acts).threads[t].phase.Acquiring? && After(s0, acts).threads[u].phase.Acquiring?
    ensures t == u
  {
    RunKeepsInv(s0, acts);
    var s := After(s0, acts);
    assert UnderLock(s.threads[t].phase) && UnderLock(s.threads[u].phase);
  }

  /** As long as a call is open, some thread can go on, at the latest with a failing acquisition. */
  lemma {:induction false} NoDeadlock(s: State, t: nat)
    requires Inv(s) && t < |s.threads| && !s.threads[t].phase.Idle?
    ensures exists a :: Enabled(s, a) && (a.Next? || a.Fail?)
  {
    var u := if s.holder.HeldBy? then s.holder.tid else t;
    assert UnderLock(s.threads[u].phase) <==> s.holder == HeldBy(u);
    assert Enabled(s, if s.threads[u].phase.Acquiring? then Fail(u) else Next(u));
  }

  /** A refresh token, once there is one, is never replaced by an empty one. */
  lemma {:induction false} RefreshTokenKept(s: State, acts: seq<Action>)
    requires Inv(s) && Runs(s, acts) && s.cred.refreshToken != ""
    ensures After(s, acts).cred.refreshToken != ""
    decreases |acts|
  {
    if acts != [] {
      if acts[0].Next? {
        assert ThreadOk(s, s.threads[acts[0].tid]);
      }
      StepKeepsInv(s, acts[0]);
      RefreshTokenKept(Apply(s, acts[0]), acts[1..]);
    }
  }
}
