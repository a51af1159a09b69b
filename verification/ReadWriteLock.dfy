/** `ReadWriteLock` and the dictionary it guards, as a step system over any number of threads.

    One step is one access to shared state: taking or giving back the mutex of the condition
    variable, changing `_readers`, testing it, waiting, notifying, or one change of the
    dictionary. A thread's program counter is its `phase`; a thread at `Rest` is running
    client code, possibly inside read sections it has opened. */
module ReadWriteLock {
  type Dict = map<string, string>

  datatype Phase =
    | Rest
      // ReadLock.__enter__
    | EnterWant | EnterHeld | EnterDone
      // ReadLock.__exit__
    | ExitWant | ExitHeld | ExitTest | ExitNotify | ExitDone
      // WriteLock.__enter__, the write section, and WriteLock.__exit__
    | WriteWant | WriteTest | WriteWait | Waiting | Woken | Writing

  /** `depth` counts the read sections of this thread that are included in `_readers`. */
  datatype Thread = Thread(phase: Phase, depth: nat)

  datatype Holder = Free | HeldBy(tid: nat)

  /** `committed` is the dictionary as the last completed write section left it. */
  datatype State = State(holder: Holder, readers: int, threads: seq<Thread>, data: Dict, committed: Dict)

  datatype Move = StartRead | StartExit | StartWrite | Mutate(newData: Dict) | Next

  datatype Action = Action(tid: nat, move: Move)

  /** The phases in which a thread owns the mutex. */
  predicate Owning(p: Phase) {
    p in {EnterHeld, EnterDone, ExitHeld, ExitTest, ExitNotify, ExitDone, WriteTest, WriteWait, Writing}
  }

  /** The phases whose next step takes the mutex. */
  predicate Wanting(p: Phase) {
    p in {EnterWant, ExitWant, WriteWant, Woken}
  }

  predicate InWriteCall(p: Phase) {
    p in {WriteWant, WriteTest, WriteWait, Waiting, Woken}
  }

  predicate Enabled(s: State, a: Action) {
    && a.tid < |s.threads|
    && var th := s.threads[a.tid];
       match a.move
       case StartRead => th.phase == Rest
       case StartExit => th.phase == Rest && th.depth > 0
       case StartWrite => th.phase == Rest
       case Mutate(_) => th.phase == Writing
       case Next => Owning(th.phase) || (Wanting(th.phase) && s.holder == Free)
  }

  function NotifyAll(ts: seq<Thread>): (r: seq<Thread>)
    ensures |r| == |ts|
    ensures forall i :: 0 <= i < |ts| ==>
      r[i] == if ts[i].phase == Waiting then Thread(Woken, ts[i].depth) else ts[i]
  {
    seq(|ts|, i requires 0 <= i < |ts| => if ts[i].phase == Waiting then Thread(Woken, ts[i].depth) else ts[i])
  }

  function Goto(s: State, t: nat, p: Phase): State
    requires t < |s.threads|
  {
    s.(threads := s.threads[t := s.threads[t].(phase := p)])
  }

  function Take(s: State, t: nat, p: Phase): State
    requires t < |s.threads|
  {
    Goto(s, t, p).(holder := HeldBy(t))
  }

  function Give(s: State, t: nat, p: Phase): State
    requires t < |s.threads|
  {
    Goto(s, t, p).(holder := Free)
  }

  function StepNext(s: State, t: nat): State
    requires Enabled(s, Action(t, Next))
  {
    var th := s.threads[t];
    match th.phase
    case EnterWant => Take(s, t, EnterHeld)
    case EnterHeld =>
      s.(readers := s.readers + 1, threads := s.threads[t := Thread(EnterDone, th.depth + 1)])
    case EnterDone => Give(s, t, Rest)
    case ExitWant => Take(s, t, ExitHeld)
    case ExitHeld =>
      s.(readers := s.readers - 1,
         threads := s.threads[t := Thread(ExitTest, if th.depth > 0 then th.depth - 1 else 0)])
    case ExitTest => Goto(s, t, if s.readers == 0 then ExitNotify else ExitDone)
    case ExitNotify => s.(threads := NotifyAll(s.threads)[t := Thread(ExitDone, th.depth)])
    case ExitDone => Give(s, t, Rest)
    case WriteWant => Take(s, t, WriteTest)
    case WriteTest => Goto(s, t, if s.readers > 0 then WriteWait else Writing)
    case WriteWait => Give(s, t, Waiting)
    case Woken => Take(s, t, WriteTest)
    case Writing => Give(s, t, Rest).(committed := s.data)
    case _ => s
  }

  function Apply(s: State, a: Action): State
    requires Enabled(s, a)
  {
    match a.move
    case StartRead => Goto(s, a.tid, EnterWant)
    case StartExit => Goto(s, a.tid, ExitWant)
    case StartWrite => Goto(s, a.tid, WriteWant)
    case Mutate(d) => s.(data := d)
    case Next => StepNext(s, a.tid)
  }

  ghost predicate Init(s: State) {
    && s.holder == Free && s.readers == 0 && s.committed == s.data
    && forall i :: 0 <= i < |s.threads| ==> s.threads[i] == Thread(Rest, 0)
  }

  /** The actions can be taken one after the other from `s`. */
  predicate Runs(s: State, acts: seq<Action>)
    decreases |acts|
  {
    acts == [] || (Enabled(s, acts[0]) && Runs(Apply(s, acts[0]), acts[1..]))
  }

  function After(s: State, acts: seq<Action>): State
    requires Runs(s, acts)
    decreases |acts|
  {
    if acts == [] then s else After(Apply(s, acts[0]), acts[1..])
  }

  // ---------------------------------------------------------------- counting open sections

  function SumDepth(ts: seq<Thread>): (n: nat) {
    if ts == [] then 0 else ts[0].depth + SumDepth(ts[1..])
  }

  lemma {:induction false} SumUpdate(ts: seq<Thread>, i: nat, th: Thread)
    requires i < |ts|
    ensures SumDepth(ts[i := th]) == SumDepth(ts) - ts[i].depth + th.depth
  {
    if i == 0 {
      assert ts[i := th][1..] == ts[1..];
    } else {
      assert ts[i := th][1..] == ts[1..][i - 1 := th];
      SumUpdate(ts[1..], i - 1, th);
    }
  }

  lemma {:induction false} SumSameDepths(ts: seq<Thread>, us: seq<Thread>)
    requires |ts| == |us| && forall i :: 0 <= i < |ts| ==> ts[i].depth == us[i].depth
    ensures SumDepth(ts) == SumDepth(us)
  {
    if ts != [] {
      SumSameDepths(ts[1..], us[1..]);
    }
  }

  lemma {:induction false} SumAtLeast(ts: seq<Thread>, i: nat)
    requires i < |ts|
    ensures SumDepth(ts) >= ts[i].depth
  {
    if i > 0 {
      SumAtLeast(ts[1..], i - 1);
    }
  }

  lemma {:induction false} SomeReader(ts: seq<Thread>) returns (i: nat)
    requires SumDepth(ts) > 0
    ensures i < |ts| && ts[i].depth > 0
  {
    if ts[0].depth > 0 {
      i := 0;
    } else {
      i := SomeReader(ts[1..]);
      i := i + 1;
    }
  }

  // ---------------------------------------------------------------- the inductive invariant

  ghost predicate MutexOk(s: State) {
    && (s.holder.HeldBy? ==> s.holder.tid < |s.threads|)
    && forall i :: 0 <= i < |s.threads| ==> (Owning(s.threads[i].phase) <==> s.holder == HeldBy(i))
  }

  ghost predicate ThreadOk(s: State, th: Thread) {
    && (th.phase in {ExitWant, ExitHeld} ==> th.depth > 0)
    && (th.phase in {ExitNotify, Writing} ==> s.readers == 0)
    && (th.phase == WriteWait ==> s.readers > 0)
  }

  /** The mutex owner has brought the counter to zero and has yet to notify. */
  ghost predicate AboutToNotify(s: State) {
    && s.readers == 0 && s.holder.HeldBy? && s.holder.tid < |s.threads|
    && s.threads[s.holder.tid].phase in {ExitTest, ExitNotify}
  }

  ghost predicate SomeoneWriting(s: State) {
    exists i :: 0 <= i < |s.threads| && s.threads[i].phase == Writing
  }

  ghost predicate Inv(s: State) {
    && MutexOk(s)
    && s.readers == SumDepth(s.threads)
    && (forall i :: 0 <= i < |s.threads| ==> ThreadOk(s, s.threads[i]))
    && ((exists i :: 0 <= i < |s.threads| && s.threads[i].phase == Waiting) ==> s.readers > 0 || AboutToNotify(s))
    && (SomeoneWriting(s) || s.data == s.committed)
  }

  lemma {:induction false} SumZero(ts: seq<Thread>)
    requires forall i :: 0 <= i < |ts| ==> ts[i].depth == 0
    ensures SumDepth(ts) == 0
  {
    if ts != [] {
      SumZero(ts[1..]);
    }
  }

  lemma {:induction false} InitInv(s: State)
    requires Init(s)
    ensures Inv(s)
  {
    SumZero(s.threads);
  }

  lemma {:induction false} StepKeepsSum(s: State, a: Action)
    requires Inv(s) && Enabled(s, a)
    ensures Apply(s, a).readers == SumDepth(Apply(s, a).threads)
  {
    var s' := Apply(s, a);
    var ts := s.threads;
    if a.move == Next && ts[a.tid].phase == ExitNotify {
      SumSameDepths(ts, NotifyAll(ts));
      SumUpdate(NotifyAll(ts), a.tid, s'.threads[a.tid]);
    } else {
      SumUpdate(ts, a.tid, s'.threads[a.tid]);
      assert s'.threads == ts[a.tid := s'.threads[a.tid]];
    }
  }

  lemma {:induction false} StepKeepsInv(s: State, a: Action)
    requires Inv(s) && Enabled(s, a)
    ensures Inv(Apply(s, a))
  {
    StepKeepsSum(s, a);
    StepKeepsMutex(s, a);
    StepKeepsThreads(s, a);
    StepKeepsWaiters(s, a);
    StepKeepsCommitted(s, a);
  }

  /** A step changes nothing in another thread but to wake it. */
  lemma {:induction false} OtherThreads(s: State, a: Action, i: nat)
    requires Enabled(s, a) && i < |s.threads| && i != a.tid
    ensures |Apply(s, a).threads| == |s.threads| && Apply(s, a).threads[i].depth == s.threads[i].depth
    ensures var p, p' := s.threads[i].phase, Apply(s, a).threads[i].phase;
      p' == p || (p == Waiting && p' == Woken && s.threads[a.tid].phase == ExitNotify)
  {
  }

  lemma {:induction false} MoverMutex(s: State, a: Action)
    requires MutexOk(s) && Enabled(s, a)
    ensures var s', t := Apply(s, a), a.tid;
      && |s'.threads| == |s.threads|
      && (Owning(s'.threads[t].phase) <==> s'.holder == HeldBy(t))
      && (s'.holder == s.holder || s'.holder == HeldBy(t) || (s'.holder == Free && s.holder == HeldBy(t)))
      && (s'.holder == HeldBy(t) ==> s.holder == HeldBy(t) || s.holder == Free)
  {
  }

  lemma {:induction false} StepKeepsMutex(s: State, a: Action)
    requires Inv(s) && Enabled(s, a)
    ensures MutexOk(Apply(s, a))
  {
    var s' := Apply(s, a);
    MoverMutex(s, a);
    forall i | 0 <= i < |s'.threads| ensures Owning(s'.threads[i].phase) <==> s'.holder == HeldBy(i) {
      if i != a.tid {
        OtherThreads(s, a, i);
      }
    }
  }

  lemma {:induction false} MoverThread(s: State, a: Action)
    requires Inv(s) && Enabled(s, a)
    ensures ThreadOk(Apply(s, a), Apply(s, a).threads[a.tid])
  {
    assert ThreadOk(s, s.threads[a.tid]);
  }

  lemma {:induction false} OtherThread(s: State, a: Action, i: nat)
    requires Inv(s) && Enabled(s, a) && i < |s.threads| && i != a.tid
    ensures i < |Apply(s, a).threads| && ThreadOk(Apply(s, a), Apply(s, a).threads[i])
  {
    assert ThreadOk(s, s.threads[i]);
    OtherThreads(s, a, i);
    if Apply(s, a).readers != s.readers {
      assert s.holder == HeldBy(a.tid);
      assert !Owning(s.threads[i].phase);
    }
  }

  lemma {:induction false} StepKeepsThreads(s: State, a: Action)
    requires Inv(s) && Enabled(s, a)
    ensures forall i :: 0 <= i < |Apply(s, a).threads| ==> ThreadOk(Apply(s, a), Apply(s, a).threads[i])
  {
    MoverMutex(s, a);
    forall i | 0 <= i < |Apply(s, a).threads| ensures ThreadOk(Apply(s, a), Apply(s, a).threads[i]) {
      if i == a.tid {
        MoverThread(s, a);
      } else {
        OtherThread(s, a, i);
      }
    }
  }

  lemma {:induction false} StepKeepsWaiters(s: State, a: Action)
    requires Inv(s) && Enabled(s, a)
    ensures var s' := Apply(s, a);
      (exists i :: 0 <= i < |s'.threads| && s'.threads[i].phase == Waiting) ==> s'.readers > 0 || AboutToNotify(s')
  {
  }

  lemma {:induction false} StepKeepsCommitted(s: State, a: Action)
    requires Inv(s) && Enabled(s, a)
    ensures SomeoneWriting(Apply(s, a)) || Apply(s, a).data == Apply(s, a).committed
  {
    if SomeoneWriting(s) {
      var w :| 0 <= w < |s.threads| && s.threads[w].phase == Writing;
      assert a.tid != w || a.move.Mutate? ==> Apply(s, a).threads[w].phase == Writing;
    }
  }

  lemma {:induction false} RunKeepsInv(s: State, acts: seq<Action>)
    requires Inv(s) && Runs(s, acts)
    ensures Inv(After(s, acts))
    decreases |acts|
  {
    if acts != [] {
      StepKeepsInv(s, acts[0]);
      RunKeepsInv(Apply(s, acts[0]), acts[1..]);
    }
  }

  ghost predicate Reachable(s: State) {
    exists s0, acts :: Init(s0) && Runs(s0, acts) && After(s0, acts) == s
  }

  lemma {:induction false} ReachableInv(s: State)
    requires Reachable(s)
    ensures Inv(s)
  {
    var s0, acts :| Init(s0) && Runs(s0, acts) && After(s0, acts) == s;
    InitInv(s0);
    RunKeepsInv(s0, acts);
  }

  // ---------------------------------------------------------------- safety

  /** A writer inside its section excludes every read section and every other writer, and
      the counter is exactly the number of open read sections, nesting counted. */
  lemma {:induction false} Exclusion(s: State)
    requires Reachable(s)
    ensures s.readers == SumDepth(s.threads)
    ensures forall w, t :: 0 <= w < |s.threads| && 0 <= t < |s.threads| && s.threads[w].phase == Writing ==>
      s.threads[t].depth == 0 && (t != w ==> s.threads[t].phase != Writing)
  {
    ReachableInv(s);
    forall w, t | 0 <= w < |s.threads| && 0 <= t < |s.threads| && s.threads[w].phase == Writing
      ensures s.threads[t].depth == 0 && (t != w ==> s.threads[t].phase != Writing)
    {
      SumAtLeast(s.threads, t);
    }
  }

  /** No wakeup is lost: a writer waiting un-notified either has a counted reader to wait
      for, or the reader that brought the counter to zero is still about to notify it. */
  lemma {:induction false} NoLostWakeup(s: State)
    requires Reachable(s)
    ensures forall t :: 0 <= t < |s.threads| && s.threads[t].phase == Waiting ==>
      (exists u :: 0 <= u < |s.threads| && s.threads[u].depth > 0) || AboutToNotify(s)
  {
    ReachableInv(s);
    if s.readers > 0 {
      var u := SomeReader(s.threads);
    }
  }

  /** Readers only ever see whole write sections: while any read section is open the
      dictionary is what the last completed write section left. */
  lemma {:induction false} ReadersSeeCommitted(s: State)
    requires Reachable(s)
    ensures (exists t :: 0 <= t < |s.threads| && s.threads[t].depth > 0) ==> s.data == s.committed
  {
    Exclusion(s);
    ReachableInv(s);
  }

  /** Thread `t` stays inside a read section throughout the run. */
  ghost predicate StaysInside(s: State, acts: seq<Action>, t: nat)
    requires Runs(s, acts)
    decreases |acts|
  {
    && t < |s.threads| && s.threads[t].depth > 0
    && (acts == [] || StaysInside(Apply(s, acts[0]), acts[1..], t))
  }

  lemma {:induction false} StepKeepsData(s: State, a: Action, t: nat)
    requires Inv(s) && Enabled(s, a) && t < |s.threads| && s.threads[t].depth > 0
    ensures Apply(s, a).data == s.data
  {
    SumAtLeast(s.threads, t);
  }

  /** The dictionary does not change, whatever other threads do, as long as one thread stays
      inside a read section. */
  lemma {:induction false} SnapshotStable(s: State, acts: seq<Action>, t: nat)
    requires Inv(s) && Runs(s, acts) && StaysInside(s, acts, t)
    ensures After(s, acts).data == s.data
    decreases |acts|
  {
    if acts != [] {
      StepKeepsData(s, acts[0], t);
      StepKeepsInv(s, acts[0]);
      SnapshotStable(Apply(s, acts[0]), acts[1..], t);
    }
  }

  // ---------------------------------------------------------------- in terms of the calls made

  /** How often an action was taken. */
  ghost function Times(acts: seq<Action>, a: Action): nat {
    multiset(acts)[a]
  }

  /** Read sections a thread has asked for and not asked to leave, going by its state. */
  function Pending(th: Thread): int {
    th.depth + (if th.phase in {EnterWant, EnterHeld} then 1 else 0) - (if th.phase in {ExitWant, ExitHeld} then 1 else 0)
  }

  lemma {:induction false} StepCounts(s: State, a: Action, t: nat)
    requires Inv(s) && Enabled(s, a) && t < |s.threads|
    ensures |Apply(s, a).threads| == |s.threads|
    ensures Pending(Apply(s, a).threads[t]) == Pending(s.threads[t])
      + (if a == Action(t, StartRead) then 1 else 0) - (if a == Action(t, StartExit) then 1 else 0)
  {
    if t != a.tid {
      OtherThreads(s, a, t);
    } else {
      assert ThreadOk(s, s.threads[t]);
    }
  }

  lemma {:induction false} RunCounts(s: State, acts: seq<Action>, t: nat)
    requires Inv(s) && Runs(s, acts) && t < |s.threads|
    ensures |After(s, acts).threads| == |s.threads|
    ensures Pending(After(s, acts).threads[t]) == Pending(s.threads[t])
      + Times(acts, Action(t, StartRead)) - Times(acts, Action(t, StartExit))
    decreases |acts|
  {
    hide Inv, Apply, Enabled, Pending;
    if acts != [] {
      StepCounts(s, acts[0], t);
      StepKeepsInv(s, acts[0]);
      RunCounts(Apply(s, acts[0]), acts[1..], t);
      assert acts == [acts[0]] + acts[1..];
    }
  }

  /** A thread in client code is counted once for every read section it has opened and not closed. */
  lemma {:induction false} EverySectionCounts(s0: State, acts: seq<Action>, t: nat)
    requires Init(s0) && Runs(s0, acts) && t < |s0.threads|
    ensures |After(s0, acts).threads| == |s0.threads|
    ensures After(s0, acts).threads[t].phase == Rest ==>
      After(s0, acts).threads[t].depth == Times(acts, Action(t, StartRead)) - Times(acts, Action(t, StartExit))
  {
    InitInv(s0);
    RunCounts(s0, acts, t);
  }

  /** Exclusion in terms of the calls: while a thread writes, every thread in client code has closed
      every read section it opened, and the others do not write. */
  lemma {:induction false} WriterIsAlone(s0: State, acts: seq<Action>, w: nat, t: nat)
    requires Init(s0) && Runs(s0, acts) && w < |s0.threads| && t < |s0.threads|
    ensures |After(s0, acts).threads| == |s0.threads|
    ensures After(s0, acts).threads[w].phase == Writing ==>
      (After(s0, acts).threads[t].phase == Rest ==>
         Times(acts, Action(t, StartRead)) == Times(acts, Action(t, StartExit)))
      && (t != w ==> After(s0, acts).threads[t].phase != Writing)
  {
    EverySectionCounts(s0, acts, t);
    assert Reachable(After(s0, acts));
    hide Init, Runs, After, Reachable;
    Exclusion(After(s0, acts));
  }

  /** What the last change in a run made of the dictionary. */
  function LastWritten(acts: seq<Action>, before: Dict): Dict {
    if acts == [] then before
    else
      match acts[|acts| - 1].move
      case Mutate(d) => d
      case _ => LastWritten(acts[..|acts| - 1], before)
  }

  lemma {:induction false} LastWrittenCons(a: Action, acts: seq<Action>, before: Dict)
    ensures LastWritten([a] + acts, before) == LastWritten(acts, if a.move.Mutate? then a.move.newData else before)
  {
    if acts == [] {
      assert [a] + acts == [a] && [a][..0] == [];
    } else {
      assert ([a] + acts)[..|acts|] == [a] + acts[..|acts| - 1];
      LastWrittenCons(a, acts[..|acts| - 1], before);
    }
  }

  lemma {:induction false} StepData(s: State, a: Action)
    requires Enabled(s, a)
    ensures Apply(s, a).data == if a.move.Mutate? then a.move.newData else s.data
  {
  }

  lemma {:induction false} DataIsLastWritten(s: State, acts: seq<Action>)
    requires Runs(s, acts)
    ensures After(s, acts).data == LastWritten(acts, s.data)
    decreases |acts|
  {
    hide Apply, Enabled;
    if acts != [] {
      StepData(s, acts[0]);
      DataIsLastWritten(Apply(s, acts[0]), acts[1..]);
      LastWrittenCons(acts[0], acts[1..], s.data);
      assert [acts[0]] + acts[1..] == acts;
    }
  }

  /** What a reader sees is what the last change of the run made of the dictionary, and the write
      section that made it is complete. */
  lemma {:induction false} ReadersSeeLastWrite(s0: State, acts: seq<Action>, t: nat)
    requires Init(s0) && Runs(s0, acts) && t < |After(s0, acts).threads| && After(s0, acts).threads[t].depth > 0
    ensures After(s0, acts).data == After(s0, acts).committed == LastWritten(acts, s0.data)
    ensures forall w :: 0 <= w < |After(s0, acts).threads| ==> After(s0, acts).threads[w].phase != Writing
  {
    DataIsLastWritten(s0, acts);
    assert Reachable(After(s0, acts));
    hide Init, Runs, After, Reachable;
    ReadersSeeCommitted(After(s0, acts));
    Exclusion(After(s0, acts));
  }

  // ---------------------------------------------------------------- completion of calls

  /** The thread is in client code with no read section open. */
  predicate Idle(th: Thread) {
    th.phase == Rest && th.depth == 0
  }

  predicate AllIdle(s: State) {
    forall i :: 0 <= i < |s.threads| ==> Idle(s.threads[i])
  }

  /** A step that carries a call already begun, or a section already open, towards its end. */
  predicate Finishing(a: Action) {
    a.move == Next || a.move == StartExit
  }

  ghost predicate CanFinish(s: State) {
    exists a :: Finishing(a) && Enabled(s, a)
  }

  ghost predicate Deadlocked(s: State) {
    !AllIdle(s) && !CanFinish(s)
  }

  /** Clients ask for the write lock only outside their own read sections, as every method
      of `ThreadSafeDict` does. */
  predicate Disciplined(s: State, acts: seq<Action>)
    requires Runs(s, acts)
    decreases |acts|
  {
    acts == [] ||
    ((acts[0].move == StartWrite ==> s.threads[acts[0].tid].depth == 0)
     && Disciplined(Apply(s, acts[0]), acts[1..]))
  }

  /** No thread is in a write call, or writing, with a read section of its own open. */
  ghost predicate NoUpgrade(s: State) {
    forall i :: 0 <= i < |s.threads| && (InWriteCall(s.threads[i].phase) || s.threads[i].phase == Writing) ==>
      s.threads[i].depth == 0
  }

  lemma {:induction false} StepKeepsNoUpgrade(s: State, a: Action)
    requires Inv(s) && NoUpgrade(s) && Enabled(s, a)
    requires a.move == StartWrite ==> s.threads[a.tid].depth == 0
    ensures NoUpgrade(Apply(s, a))
  {
    var s' := Apply(s, a);
    forall i | 0 <= i < |s'.threads| && (InWriteCall(s'.threads[i].phase) || s'.threads[i].phase == Writing)
      ensures s'.threads[i].depth == 0
    {
      MoverMutex(s, a);
      if i != a.tid {
        OtherThreads(s, a, i);
      } else {
        MoverUpgrade(s, a);
      }
    }
  }

  lemma {:induction false} MoverUpgrade(s: State, a: Action)
    requires Inv(s) && NoUpgrade(s) && Enabled(s, a)
    requires a.move == StartWrite ==> s.threads[a.tid].depth == 0
    ensures var th := Apply(s, a).threads[a.tid];
      InWriteCall(th.phase) || th.phase == Writing ==> th.depth == 0
  {
  }

  lemma {:induction false} DisciplineKept(s: State, acts: seq<Action>)
    requires Inv(s) && NoUpgrade(s) && Runs(s, acts) && Disciplined(s, acts)
    ensures NoUpgrade(After(s, acts))
    decreases |acts|
  {
    if acts != [] {
      StepKeepsInv(s, acts[0]);
      StepKeepsNoUpgrade(s, acts[0]);
      DisciplineKept(Apply(s, acts[0]), acts[1..]);
    }
  }

  /** A deadlock has exactly one shape: the mutex is free, every thread that is not idle
      waits un-notified in a write call, and one of those holds a read section of its own. */
  lemma {:induction false} DeadlockShape(s: State)
    requires Inv(s)
    ensures Deadlocked(s) <==>
      && s.holder == Free
      && (exists t :: 0 <= t < |s.threads| && s.threads[t].phase == Waiting && s.threads[t].depth > 0)
      && (forall t :: 0 <= t < |s.threads| ==> Idle(s.threads[t]) || s.threads[t].phase == Waiting)
  {
    if Deadlocked(s) {
      forall t | 0 <= t < |s.threads| ensures Idle(s.threads[t]) || s.threads[t].phase == Waiting {
        assert !Enabled(s, Action(t, Next)) && !Enabled(s, Action(t, StartExit));
        if s.holder.HeldBy? {
          assert Enabled(s, Action(s.holder.tid, Next));
        }
      }
      if s.holder.HeldBy? {
        assert Enabled(s, Action(s.holder.tid, Next));
      }
      var u :| 0 <= u < |s.threads| && !Idle(s.threads[u]);
      assert s.threads[u].phase == Waiting;
      var r := SomeReader(s.threads);
    }
  }

  /** With disciplined clients no reachable state is deadlocked. */
  lemma {:induction false} DeadlockFree(s0: State, acts: seq<Action>)
    requires Init(s0) && Runs(s0, acts) && Disciplined(s0, acts)
    ensures !Deadlocked(After(s0, acts))
  {
    InitInv(s0);
    RunKeepsInv(s0, acts);
    DisciplineKept(s0, acts);
    DeadlockShape(After(s0, acts));
  }

  lemma {:induction false} StepKeepsBlocked(s: State, a: Action, t: nat)
    requires Inv(s) && Enabled(s, a)
    requires t < |s.threads| && InWriteCall(s.threads[t].phase) && s.threads[t].depth > 0
    ensures t < |Apply(s, a).threads|
    ensures InWriteCall(Apply(s, a).threads[t].phase) && Apply(s, a).threads[t].depth > 0
  {
    MoverMutex(s, a);
    if t == a.tid {
      SumAtLeast(s.threads, t);
    } else {
      OtherThreads(s, a, t);
    }
  }

  /** A thread in a write call it began inside a read section of its own. */
  ghost predicate Upgrading(s: State, t: nat) {
    t < |s.threads| && InWriteCall(s.threads[t].phase) && s.threads[t].depth > 0
  }

  /** The discipline is needed: a write call begun inside a read section of the same thread
      never gets the lock, in any continuation. */
  lemma {:induction false} UpgradeNeverSucceeds(s: State, acts: seq<Action>, t: nat)
    requires Inv(s) && Runs(s, acts) && Upgrading(s, t)
    ensures Upgrading(After(s, acts), t)
    decreases |acts|
  {
    hide Inv;
    if acts != [] {
      StepKeepsBlocked(s, acts[0], t);
      StepKeepsInv(s, acts[0]);
      UpgradeNeverSucceeds(Apply(s, acts[0]), acts[1..], t);
    }
  }

  lemma {:induction false} UndisciplinedUpgrades(s: State, acts: seq<Action>)
    requires Inv(s) && Runs(s, acts) && !Disciplined(s, acts)
    ensures exists t: nat :: Upgrading(After(s, acts), t)
    decreases |acts|
  {
    hide Inv;
    var s1 := Apply(s, acts[0]);
    StepKeepsInv(s, acts[0]);
    if acts[0].move == StartWrite && s.threads[acts[0].tid].depth > 0 {
      assert Upgrading(s1, acts[0].tid);
      UpgradeNeverSucceeds(s1, acts[1..], acts[0].tid);
      assert Upgrading(After(s, acts), acts[0].tid);
    } else {
      UndisciplinedUpgrades(s1, acts[1..]);
      var t: nat :| Upgrading(After(s1, acts[1..]), t);
      assert Upgrading(After(s, acts), t);
    }
  }

  /** A run was disciplined exactly when no thread waits to write inside its own read section. */
  lemma {:induction false} DisciplineShows(s0: State, acts: seq<Action>)
    requires Init(s0) && Runs(s0, acts)
    ensures Disciplined(s0, acts) <==> !exists t: nat :: Upgrading(After(s0, acts), t)
  {
    InitInv(s0);
    if Disciplined(s0, acts) {
      DisciplineKept(s0, acts);
    } else {
      UndisciplinedUpgrades(s0, acts);
    }
  }

  // Every finishing step lowers a measure. A read section still to be closed is worth more
  // than all the extra test-and-wait rounds its notification can cause in other threads.

  function Toll(n: nat): nat {
    4 * n + 10
  }

  function Rank(p: Phase, n: nat): nat {
    match p
    case EnterWant => Toll(n) + 6
    case EnterHeld => Toll(n) + 5
    case EnterDone => 4
    case Rest => 3
    case ExitWant => 2
    case ExitHeld => 1
    case ExitTest => 4 * n + 7
    case ExitNotify => 4 * n + 6
    case ExitDone => 5
    case WriteWant => 8
    case Woken => 8
    case WriteTest => 7
    case WriteWait => 6
    case Waiting => 4
    case Writing => 5
  }

  function Cost(th: Thread, n: nat): nat {
    Toll(n) * th.depth + Rank(th.phase, n)
  }

  function TotalCost(ts: seq<Thread>, n: nat): nat {
    if ts == [] then 0 else Cost(ts[0], n) + TotalCost(ts[1..], n)
  }

  /** How many finishing steps can still be taken, at most. */
  function Measure(s: State): nat {
    TotalCost(s.threads, |s.threads|)
  }

  lemma {:induction false} CostUpdate(ts: seq<Thread>, i: nat, th: Thread, n: nat)
    requires i < |ts|
    ensures TotalCost(ts[i := th], n) == TotalCost(ts, n) - Cost(ts[i], n) + Cost(th, n)
  {
    if i == 0 {
      assert ts[i := th][1..] == ts[1..];
    } else {
      assert ts[i := th][1..] == ts[1..][i - 1 := th];
      CostUpdate(ts[1..], i - 1, th, n);
    }
  }

  lemma {:induction false} CostNotify(ts: seq<Thread>, n: nat)
    ensures TotalCost(NotifyAll(ts), n) <= TotalCost(ts, n) + 4 * |ts|
  {
    if ts != [] {
      assert NotifyAll(ts)[1..] == NotifyAll(ts[1..]);
      CostNotify(ts[1..], n);
    }
  }

  lemma {:induction false} CostFalls(s: State, a: Action)
    requires Inv(s) && Enabled(s, a) && Finishing(a)
    requires s.threads[a.tid].phase != ExitNotify
    ensures var th, n := s.threads[a.tid], |s.threads|;
      Apply(s, a).threads == s.threads[a.tid := Apply(s, a).threads[a.tid]]
      && Cost(Apply(s, a).threads[a.tid], n) < Cost(th, n)
  {
    hide MutexOk, SumDepth, AboutToNotify, SomeoneWriting;
    var th, n := s.threads[a.tid], |s.threads|;
    assert Apply(s, a).threads == s.threads[a.tid := Apply(s, a).threads[a.tid]];
    if a.move == Next && th.phase == EnterHeld {
      assert Toll(n) * (th.depth + 1) == Toll(n) * th.depth + Toll(n);
    } else if a.move == Next && th.phase == ExitHeld {
      assert ThreadOk(s, th);
      assert Toll(n) * th.depth == Toll(n) * (th.depth - 1) + Toll(n);
    } else {
      assert Apply(s, a).threads[a.tid].depth == th.depth;
    }
  }

  lemma {:induction false} FinishingLowers(s: State, a: Action)
    requires Inv(s) && Enabled(s, a) && Finishing(a)
    ensures Measure(Apply(s, a)) < Measure(s)
  {
    var n, ts, th := |s.threads|, s.threads, s.threads[a.tid];
    if th.phase == ExitNotify {
      CostNotify(ts, n);
      CostUpdate(NotifyAll(ts), a.tid, Thread(ExitDone, th.depth), n);
    } else {
      CostFalls(s, a);
      CostUpdate(ts, a.tid, Apply(s, a).threads[a.tid], n);
    }
  }

  lemma {:induction false} FinishingRunsAreBounded(s: State, acts: seq<Action>)
    requires Inv(s) && Runs(s, acts) && forall a :: a in acts ==> Finishing(a)
    ensures |acts| + Measure(After(s, acts)) <= Measure(s)
    decreases |acts|
  {
    if acts != [] {
      FinishingLowers(s, acts[0]);
      StepKeepsInv(s, acts[0]);
      FinishingRunsAreBounded(Apply(s, acts[0]), acts[1..]);
    }
  }

  lemma {:induction false} FinishingIsDisciplined(s: State, acts: seq<Action>)
    requires Runs(s, acts) && forall a :: a in acts ==> Finishing(a)
    ensures Disciplined(s, acts)
    decreases |acts|
  {
    if acts != [] {
      assert Finishing(acts[0]);
      FinishingIsDisciplined(Apply(s, acts[0]), acts[1..]);
    }
  }

  /** Every call returns: once disciplined clients start nothing new, any schedule of the
      steps that remain is finite, and when no step remains every thread is idle. */
  lemma {:induction false} AllCallsComplete(s0: State, acts: seq<Action>, drain: seq<Action>)
    requires Init(s0) && Runs(s0, acts) && Disciplined(s0, acts)
    requires Runs(After(s0, acts), drain) && forall a :: a in drain ==> Finishing(a)
    ensures |drain| <= Measure(After(s0, acts))
    ensures CanFinish(After(After(s0, acts), drain)) || AllIdle(After(After(s0, acts), drain))
  {
    var s := After(s0, acts);
    InitInv(s0);
    RunKeepsInv(s0, acts);
    DisciplineKept(s0, acts);
    FinishingRunsAreBounded(s, drain);
    FinishingIsDisciplined(s, drain);
    RunKeepsInv(s, drain);
    DisciplineKept(s, drain);
    DeadlockShape(After(s, drain));
  }

  /** Only steps that carry calls towards their ends. */
  ghost predicate Draining(s: State, drain: seq<Action>) {
    Runs(s, drain) && forall a :: a in drain ==> Finishing(a)
  }

  lemma {:induction false} DrainExists(s: State) returns (drain: seq<Action>)
    requires Inv(s)
    ensures Draining(s, drain) && !CanFinish(After(s, drain))
    decreases Measure(s)
  {
    hide Inv, Apply, Enabled, Finishing, Measure;
    if CanFinish(s) {
      var a :| Finishing(a) && Enabled(s, a);
      FinishingLowers(s, a);
      StepKeepsInv(s, a);
      var rest := DrainExists(Apply(s, a));
      drain := [a] + rest;
      assert drain[1..] == rest;
    } else {
      drain := [];
    }
  }

  /** Every call returns, whatever the schedule, if and only if no client asked to write inside
      its own read section. */
  lemma {:induction false} EveryCallReturns(s0: State, acts: seq<Action>)
    requires Init(s0) && Runs(s0, acts)
    ensures var s := After(s0, acts);
      (forall drain :: Draining(s, drain) && !CanFinish(After(s, drain)) ==> AllIdle(After(s, drain)))
      <==> Disciplined(s0, acts)
  {
    hide Init, Inv, Apply, Enabled, Disciplined;
    var s := After(s0, acts);
    InitInv(s0);
    RunKeepsInv(s0, acts);
    if Disciplined(s0, acts) {
      forall drain | Draining(s, drain) && !CanFinish(After(s, drain)) ensures AllIdle(After(s, drain)) {
        AllCallsComplete(s0, acts, drain);
      }
    } else {
      UndisciplinedUpgrades(s0, acts);
      var t: nat :| Upgrading(s, t);
      var drain := DrainExists(s);
      UpgradeNeverSucceeds(s, drain, t);
      assert !Idle(After(s, drain).threads[t]);
    }
  }

  /** One thread, alone with the lock. */
  function Alone(h: Holder, readers: int, phase: Phase, depth: nat): State {
    State(h, readers, [Thread(phase, depth)], map[], map[])
  }

  lemma {:induction false} AloneOpensSection()
    ensures Reachable(Alone(Free, 1, Rest, 1))
  {
    var s0 := Alone(Free, 0, Rest, 0);
    assert Init(s0) && Runs(s0, []) && After(s0, []) == s0;
    ReachStep(s0, Action(0, StartRead), Alone(Free, 0, EnterWant, 0));
    ReachStep(Alone(Free, 0, EnterWant, 0), Action(0, Next), Alone(HeldBy(0), 0, EnterHeld, 0));
    ReachStep(Alone(HeldBy(0), 0, EnterHeld, 0), Action(0, Next), Alone(HeldBy(0), 1, EnterDone, 1));
    ReachStep(Alone(HeldBy(0), 1, EnterDone, 1), Action(0, Next), Alone(Free, 1, Rest, 1));
  }

  lemma {:induction false} AloneAsksToWrite()
    requires Reachable(Alone(Free, 1, Rest, 1))
    ensures Reachable(Alone(HeldBy(0), 1, WriteTest, 1))
  {
    hide Reachable;
    ReachStep(Alone(Free, 1, Rest, 1), Action(0, StartWrite), Alone(Free, 1, WriteWant, 1));
    ReachStep(Alone(Free, 1, WriteWant, 1), Action(0, Next), Alone(HeldBy(0), 1, WriteTest, 1));
  }

  lemma {:induction false} AloneWaits()
    requires Reachable(Alone(HeldBy(0), 1, WriteTest, 1))
    ensures Reachable(Alone(Free, 1, Waiting, 1))
  {
    hide Reachable;
    ReachStep(Alone(HeldBy(0), 1, WriteTest, 1), Action(0, Next), Alone(HeldBy(0), 1, WriteWait, 1));
    ReachStep(Alone(HeldBy(0), 1, WriteWait, 1), Action(0, Next), Alone(Free, 1, Waiting, 1));
  }

  /** The smallest deadlock: one thread opens a read section and asks for the write lock. */
  lemma {:induction false} UpgradeDeadlocks()
    ensures exists s :: Reachable(s) && Deadlocked(s)
  {
    AloneOpensSection();
    AloneAsksToWrite();
    AloneWaits();
    var s := Alone(Free, 1, Waiting, 1);
    assert !Idle(s.threads[0]);
  }

  lemma {:induction false} ReachStep(s: State, a: Action, s': State)
    requires Reachable(s) && Enabled(s, a) && Apply(s, a) == s'
    ensures Reachable(s')
  {
    var s0, acts :| Init(s0) && Runs(s0, acts) && After(s0, acts) == s;
    Follow(s0, acts, a, s');
  }

  lemma {:induction false} Follow(s: State, acts: seq<Action>, a: Action, s': State)
    requires Runs(s, acts) && Enabled(After(s, acts), a) && Apply(After(s, acts), a) == s'
    ensures Runs(s, acts + [a]) && After(s, acts + [a]) == s'
    decreases |acts|
  {
    if acts == [] {
      assert [] + [a] == [a] && [a][1..] == [];
    } else {
      assert (acts + [a])[0] == acts[0] && (acts + [a])[1..] == acts[1..] + [a];
      Follow(Apply(s, acts[0]), acts[1..], a, s');
    }
  }
}
