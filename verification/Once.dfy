/** `SingletonMeta`: double-checked construction of one instance per class, under one re-entrant
    lock for all classes. A step system over any number of threads; a constructor may itself ask
    for other singletons, so every thread has a stack of calls, and it may fail. */
module Singletons {
  import opened Sequences

  type Class = nat
  type Object = nat

  datatype Phase =
    | FirstCheck      // about to test `cls not in cls._instances` without the lock
    | WantLock        // found no instance, about to take the lock
    | SecondCheck     // has the lock
    | Constructing    // inside the constructor, with the lock
    | Unlock          // about to leave the `with` block
    | Return          // about to read `cls._instances[cls]`

  datatype Frame = Frame(cls: Class, phase: Phase)

  datatype Holder = Free | HeldBy(tid: nat)

  /** What a call came to: an instance, or a KeyError if there is none after all. */
  datatype Answer = Answer(cls: Class, obj: Option<Object>)

  datatype Built = Built(cls: Class, obj: Object)

  datatype State = State(instances: map<Class, Object>, owner: Holder, holds: nat, stacks: seq<seq<Frame>>,
                         built: seq<Built>, answers: seq<Answer>)

  datatype Action =
    | Call(tid: nat, cls: Class)      // from outside, or from inside a constructor
    | Finish(tid: nat, obj: Object)   // the constructor succeeds
    | Fail(tid: nat)                  // the constructor raises
    | Next(tid: nat)

  function Top(stack: seq<Frame>): Frame
    requires stack != []
  {
    stack[|stack| - 1]
  }

  predicate InConstructor(stack: seq<Frame>) {
    stack != [] && Top(stack).phase.Constructing?
  }

  predicate Enabled(s: State, a: Action) {
    a.tid < |s.stacks|
    && var stack := s.stacks[a.tid];
       match a
       case Call(_, _) => stack == [] || InConstructor(stack)
       case Finish(_, _) => InConstructor(stack)
       case Fail(_) => InConstructor(stack)
       case Next(t) =>
         && stack != [] && !InConstructor(stack)
         && (Top(stack).phase.WantLock? ==> s.owner == Free || s.owner == HeldBy(t))
  }

  function Pop(s: State, t: nat): State
    requires t < |s.stacks| && s.stacks[t] != []
  {
    s.(stacks := s.stacks[t := s.stacks[t][..|s.stacks[t]| - 1]])
  }

  function Goto(s: State, t: nat, p: Phase): State
    requires t < |s.stacks| && s.stacks[t] != []
  {
    var stack := s.stacks[t];
    s.(stacks := s.stacks[t := stack[..|stack| - 1] + [Top(stack).(phase := p)]])
  }

  function Locked(s: State, t: nat): State {
    s.(owner := HeldBy(t), holds := s.holds + 1)
  }

  function Unlocked(s: State): State {
    if s.holds <= 1 then s.(owner := Free, holds := 0) else s.(holds := s.holds - 1)
  }

  function Lookup(m: map<Class, Object>, c: Class): Option<Object> {
    if c in m then Some(m[c]) else None
  }

  function Apply(s: State, a: Action): (u: State)
    requires Enabled(s, a)
    ensures |u.stacks| == |s.stacks|
  {
    match a
    case Call(t, c) => s.(stacks := s.stacks[t := s.stacks[t] + [Frame(c, FirstCheck)]])
    case Finish(t, o) =>
      var c := Top(s.stacks[t]).cls;
      Goto(s, t, Unlock).(instances := s.instances[c := o], built := s.built + [Built(c, o)])
    case Fail(t) => Unlocked(Pop(s, t))
    case Next(t) =>
      var frame := Top(s.stacks[t]);
      match frame.phase
      case FirstCheck => Goto(s, t, if frame.cls in s.instances then Return else WantLock)
      case WantLock => Locked(Goto(s, t, SecondCheck), t)
      case SecondCheck => Goto(s, t, if frame.cls in s.instances then Unlock else Constructing)
      case Unlock => Unlocked(Goto(s, t, Return))
      case Return => Pop(s, t).(answers := s.answers + [Answer(frame.cls, Lookup(s.instances, frame.cls))])
      case Constructing => s
  }

  /** No constructor asks, directly or through others, for an instance of its own class. */
  predicate NotReentrant(s: State, a: Action)
    requires Enabled(s, a)
  {
    a.Call? ==> forall i :: 0 <= i < |s.stacks[a.tid]| ==> s.stacks[a.tid][i].cls != a.cls
  }

  ghost predicate Init(s: State) {
    && s.instances == map[] && s.owner == Free && s.holds == 0 && s.built == [] && s.answers == []
    && forall t :: 0 <= t < |s.stacks| ==> s.stacks[t] == []
  }

  predicate Runs(s: State, acts: seq<Action>)
    decreases |acts|
  {
    acts == [] || (Enabled(s, acts[0]) && Runs(Apply(s, acts[0]), acts[1..]))
  }

  function After(s: State, acts: seq<Action>): State
    requires Runs(s, acts)
    decreases |acts|
  {
    if acts == [] then s else After(Apply(s, acts[0]), acts[1..])
  }

  predicate Disciplined(s: State, acts: seq<Action>)
    requires Runs(s, acts)
    decreases |acts|
  {
    acts == [] || (NotReentrant(s, acts[0]) && Disciplined(Apply(s, acts[0]), acts[1..]))
  }

  // ---------------------------------------------------------------- the invariant

  predicate Holding(p: Phase) {
    p.SecondCheck? || p.Constructing? || p.Unlock?
  }

  /** How often a thread with this stack has taken the lock. */
  function Holds(stack: seq<Frame>): nat {
    if stack == [] then 0 else if Holding(Top(stack).phase) then |stack| else |stack| - 1
  }

  ghost predicate LockOk(s: State) {
    && (s.owner == Free ==> s.holds == 0)
    && (s.owner.HeldBy? ==> s.owner.tid < |s.stacks| && s.holds > 0)
    && forall t: nat :: t < |s.stacks| ==> Holds(s.stacks[t]) == if s.owner == HeldBy(t) then s.holds else 0
  }

  ghost predicate StackOk(stack: seq<Frame>, instances: map<Class, Object>) {
    && (forall i :: 0 <= i < |stack| - 1 ==> stack[i].phase.Constructing?)
    && (forall i, j :: 0 <= i < j < |stack| ==> stack[i].cls != stack[j].cls)
    && (forall i :: 0 <= i < |stack| && stack[i].phase.Constructing? ==> stack[i].cls !in instances)
    && (forall i :: 0 <= i < |stack| && (stack[i].phase.Unlock? || stack[i].phase.Return?) ==> stack[i].cls in instances)
  }

  ghost predicate BuiltOk(s: State) {
    && (forall i, j :: 0 <= i < j < |s.built| ==> s.built[i].cls != s.built[j].cls)
    && (forall b :: b in s.built ==> b.cls in s.instances && s.instances[b.cls] == b.obj)
    && (forall c :: c in s.instances ==> Built(c, s.instances[c]) in s.built)
  }

  ghost predicate AnswersOk(s: State) {
    forall a :: a in s.answers ==> a.cls in s.instances && a.obj == Some(s.instances[a.cls])
  }

  ghost predicate Inv(s: State) {
    LockOk(s) && BuiltOk(s) && AnswersOk(s) && forall t :: 0 <= t < |s.stacks| ==> StackOk(s.stacks[t], s.instances)
  }

  /** The moving thread takes and gives the lock as often as its stack says. */
  lemma {:induction false} MoverHolds(s: State, a: Action)
    requires Inv(s) && Enabled(s, a)
    ensures var u := Apply(s, a);
      Holds(u.stacks[a.tid]) == if u.owner == HeldBy(a.tid) then u.holds else 0
  {
    hide BuiltOk, AnswersOk;
    assert StackOk(s.stacks[a.tid], s.instances);
    assert Holds(s.stacks[a.tid]) == if s.owner == HeldBy(a.tid) then s.holds else 0;
  }

  /** The others keep their stacks, and the lock if one of them has it. */
  lemma {:induction false} OthersHold(s: State, a: Action, t: nat)
    requires Inv(s) && Enabled(s, a) && t < |s.stacks| && t != a.tid
    ensures var u := Apply(s, a);
      u.stacks[t] == s.stacks[t] && (u.owner == HeldBy(t) <==> s.owner == HeldBy(t))
      && (s.owner == HeldBy(t) ==> u.holds == s.holds)
  {
    hide BuiltOk, AnswersOk, StackOk;
    assert Holds(s.stacks[a.tid]) == if s.owner == HeldBy(a.tid) then s.holds else 0;
  }

  lemma {:induction false} OwnerIsThread(s: State, a: Action)
    requires Inv(s) && Enabled(s, a)
    ensures var u := Apply(s, a);
      (u.owner == Free ==> u.holds == 0) && (u.owner.HeldBy? ==> u.owner.tid < |u.stacks| && u.holds > 0)
  {
    hide BuiltOk, AnswersOk, StackOk;
  }

  lemma {:induction false} StepKeepsLock(s: State, a: Action)
    requires Inv(s) && Enabled(s, a)
    ensures LockOk(Apply(s, a))
  {
    hide BuiltOk, AnswersOk, StackOk, Apply, Holds, Enabled;
    OwnerIsThread(s, a);
    MoverHolds(s, a);
    forall t: nat | t < |s.stacks| && t != a.tid
      ensures var u := Apply(s, a); Holds(u.stacks[t]) == if u.owner == HeldBy(t) then u.holds else 0
    {
      OthersHold(s, a, t);
    }
  }

  /** What an action leaves of the instances: nothing changes, or a new class is added. */
  lemma {:induction false} InstancesGrow(s: State, a: Action)
    requires Inv(s) && Enabled(s, a)
    ensures Apply(s, a).instances == if a.Finish? then s.instances[Top(s.stacks[a.tid]).cls := a.obj] else s.instances
    ensures Apply(s, a).built == if a.Finish? then s.built + [Built(Top(s.stacks[a.tid]).cls, a.obj)] else s.built
    ensures a.Finish? ==> Top(s.stacks[a.tid]).cls !in s.instances
  {
    hide LockOk, BuiltOk, AnswersOk;
    assert StackOk(s.stacks[a.tid], s.instances);
  }

  lemma {:induction false} BuiltGrows(s: State, b: Built, u: State)
    requires BuiltOk(s) && b.cls !in s.instances
    requires u.instances == s.instances[b.cls := b.obj] && u.built == s.built + [b]
    ensures BuiltOk(u)
  {
    forall x ensures x in u.built <==> x in s.built || x == b {
    }
    forall i | 0 <= i < |s.built| ensures s.built[i].cls != b.cls {
      assert s.built[i] in s.built;
    }
  }

  lemma {:induction false} StepKeepsBuilt(s: State, a: Action)
    requires Inv(s) && Enabled(s, a)
    ensures BuiltOk(Apply(s, a))
  {
    hide LockOk, AnswersOk, StackOk, Apply;
    InstancesGrow(s, a);
    if a.Finish? {
      hide BuiltOk;
      BuiltGrows(s, Built(Top(s.stacks[a.tid]).cls, a.obj), Apply(s, a));
    }
  }

  lemma {:induction false} StepKeepsAnswers(s: State, a: Action)
    requires Inv(s) && Enabled(s, a)
    ensures AnswersOk(Apply(s, a))
  {
    hide LockOk, BuiltOk;
    InstancesGrow(s, a);
    assert StackOk(s.stacks[a.tid], s.instances);
  }

  /** A constructor runs in one thread at a time. */
  lemma {:induction false} OneConstructs(s: State, t: nat, u: nat, i: nat)
    requires Inv(s) && t < |s.stacks| && u < |s.stacks| && InConstructor(s.stacks[t])
    requires i < |s.stacks[u]| && s.stacks[u][i].phase.Constructing?
    ensures t == u
  {
    hide BuiltOk, AnswersOk;
    assert Holds(s.stacks[t]) > 0;
    assert Holds(s.stacks[u]) == if s.owner == HeldBy(u) then s.holds else 0;
    assert StackOk(s.stacks[u], s.instances);
  }

  lemma {:induction false} TopMoves(stack: seq<Frame>, p: Phase, instances: map<Class, Object>)
    requires StackOk(stack, instances) && stack != []
    requires p.Constructing? ==> Top(stack).cls !in instances
    requires p.Unlock? || p.Return? ==> Top(stack).cls in instances
    ensures StackOk(stack[..|stack| - 1] + [Top(stack).(phase := p)], instances)
  {
  }

  lemma {:induction false} TopFinishes(stack: seq<Frame>, o: Object, instances: map<Class, Object>)
    requires StackOk(stack, instances) && InConstructor(stack)
    ensures StackOk(stack[..|stack| - 1] + [Top(stack).(phase := Unlock)], instances[Top(stack).cls := o])
  {
  }

  lemma {:induction false} TopComesOrGoes(stack: seq<Frame>, c: Class, instances: map<Class, Object>)
    requires StackOk(stack, instances)
    ensures stack != [] ==> StackOk(stack[..|stack| - 1], instances)
    ensures (stack == [] || InConstructor(stack)) && (forall i :: 0 <= i < |stack| ==> stack[i].cls != c) ==>
      StackOk(stack + [Frame(c, FirstCheck)], instances)
  {
  }

  lemma {:induction false} MoverStack(s: State, a: Action)
    requires Inv(s) && Enabled(s, a) && NotReentrant(s, a)
    ensures StackOk(Apply(s, a).stacks[a.tid], Apply(s, a).instances)
  {
    hide LockOk, BuiltOk, AnswersOk, StackOk;
    var stack := s.stacks[a.tid];
    assert StackOk(stack, s.instances);
    match a {
      case Call(_, c) => TopComesOrGoes(stack, c, s.instances);
      case Finish(_, o) => TopFinishes(stack, o, s.instances);
      case Fail(_) => TopComesOrGoes(stack, 0, s.instances);
      case Next(t) =>
        UnlockHasInstance(stack, s.instances);
        if Top(stack).phase.Return? {
          TopComesOrGoes(stack, 0, s.instances);
        } else {
          TopMoves(stack, Top(Apply(s, a).stacks[t]).phase, s.instances);
        }
    }
  }

  lemma {:induction false} UnlockHasInstance(stack: seq<Frame>, instances: map<Class, Object>)
    requires StackOk(stack, instances) && stack != []
    ensures Top(stack).phase.Unlock? ==> Top(stack).cls in instances
  {
  }

  lemma {:induction false} OtherStack(s: State, a: Action, t: nat)
    requires Inv(s) && Enabled(s, a) && t < |s.stacks| && t != a.tid
    ensures StackOk(Apply(s, a).stacks[t], Apply(s, a).instances)
  {
    hide LockOk, BuiltOk, AnswersOk, Apply;
    InstancesGrow(s, a);
    OthersHold(s, a, t);
    assert StackOk(s.stacks[t], s.instances);
    if a.Finish? {
      forall i | 0 <= i < |s.stacks[t]| && s.stacks[t][i].phase.Constructing? ensures false {
        OneConstructs(s, a.tid, t, i);
      }
    }
  }

  lemma {:induction false} StepKeepsInv(s: State, a: Action)
    requires Inv(s) && Enabled(s, a) && NotReentrant(s, a)
    ensures Inv(Apply(s, a))
  {
    StepKeepsLock(s, a);
    StepKeepsBuilt(s, a);
    StepKeepsAnswers(s, a);
    hide LockOk, BuiltOk, AnswersOk, StackOk, Apply, Enabled, NotReentrant;
    forall t: nat | t < |s.stacks| ensures StackOk(Apply(s, a).stacks[t], Apply(s, a).instances) {
      if t == a.tid {
        MoverStack(s, a);
      } else {
        OtherStack(s, a, t);
      }
    }
  }

  lemma {:induction false} RunKeepsInv(s: State, acts: seq<Action>)
    requires Inv(s) && Runs(s, acts) && Disciplined(s, acts)
    ensures Inv(After(s, acts))
    decreases |acts|
  {
    hide Inv, Apply, NotReentrant;
    if acts != [] {
      StepKeepsInv(s, acts[0]);
      RunKeepsInv(Apply(s, acts[0]), acts[1..]);
    }
  }

  lemma {:induction false} InitInv(s: State)
    requires Init(s)
    ensures Inv(s)
  {
  }

  // ---------------------------------------------------------------- main results

  /** However the threads interleave and whichever constructors fail: every class is constructed
      successfully at most once, and every call that returned, returned that instance. */
  lemma {:induction false} ConstructedOnce(s: State, acts: seq<Action>)
    requires Init(s) && Runs(s, acts) && Disciplined(s, acts)
    ensures forall i, j :: 0 <= i < j < |After(s, acts).built| ==>
      After(s, acts).built[i].cls != After(s, acts).built[j].cls
    ensures forall a :: a in After(s, acts).answers ==>
      a.obj.Some? && Built(a.cls, a.obj.value) in After(s, acts).built
  {
    hide Runs, After, Disciplined, LockOk, StackOk;
    InitInv(s);
    RunKeepsInv(s, acts);
  }

  /** An instance, once stored, stays. */
  lemma {:induction false} InstanceStays(s: State, acts: seq<Action>, c: Class)
    requires Inv(s) && Runs(s, acts) && Disciplined(s, acts) && c in s.instances
    ensures c in After(s, acts).instances && After(s, acts).instances[c] == s.instances[c]
    decreases |acts|
  {
    hide Inv, Apply, NotReentrant;
    if acts != [] {
      InstancesGrow(s, acts[0]);
      StepKeepsInv(s, acts[0]);
      InstanceStays(Apply(s, acts[0]), acts[1..], c);
    }
  }

  /** As long as a call is open, some thread can go on. */
  lemma {:induction false} NoDeadlock(s: State, t: nat)
    requires Inv(s) && t < |s.stacks| && s.stacks[t] != []
    ensures exists a :: Enabled(s, a) && !a.Call?
  {
    hide BuiltOk, AnswersOk, StackOk;
    var u := if s.owner.HeldBy? then s.owner.tid else t;
    assert Holds(s.stacks[u]) == if s.owner == HeldBy(u) then s.holds else 0;
    if InConstructor(s.stacks[u]) {
      assert Enabled(s, Fail(u));
    } else {
      assert Enabled(s, Next(u));
    }
  }

  // ---------------------------------------------------------------- every call is answered

  function IsCall(): Action -> bool {
    (a: Action) => a.Call?
  }

  function IsFail(): Action -> bool {
    (a: Action) => a.Fail?
  }

  function AnyFrame(): Frame -> bool {
    (f: Frame) => true
  }

  /** The objects that constructors returned. */
  function Finished(acts: seq<Action>): seq<Object> {
    if acts == [] then []
    else (match acts[0] case Finish(_, o) => [o] case _ => []) + Finished(acts[1..])
  }

  function Objects(built: seq<Built>): seq<Object> {
    Map(built, (b: Built) => b.obj)
  }

  lemma {:induction false} StepShape(s: State, a: Action)
    requires Enabled(s, a)
    ensures var u := Apply(s, a);
      u.stacks == s.stacks[a.tid := u.stacks[a.tid]]
      && |u.stacks[a.tid]| + |u.answers| + One(a.Fail?) == |s.stacks[a.tid]| + |s.answers| + One(a.Call?)
      && match a case Finish(t, o) => u.built == s.built + [Built(Top(s.stacks[t]).cls, o)] case _ => u.built == s.built
  {
  }

  /** A call is opened, and closed with an answer or the constructor's exception. */
  lemma {:induction false} StepAnswers(s: State, a: Action)
    requires Enabled(s, a)
    ensures var u := Apply(s, a);
      CountIn(u.stacks, AnyFrame()) + |u.answers| + One(a.Fail?)
      == CountIn(s.stacks, AnyFrame()) + |s.answers| + One(a.Call?)
    ensures Objects(Apply(s, a).built) == Objects(s.built) + (match a case Finish(_, o) => [o] case _ => [])
  {
    var u, t := Apply(s, a), a.tid;
    StepShape(s, a);
    hide Apply, Count, CountIn;
    CountUpdate(s.stacks, t, u.stacks[t], AnyFrame());
    CountEvery(s.stacks[t], AnyFrame());
    CountEvery(u.stacks[t], AnyFrame());
  }

  lemma {:induction false} RunAnswers(s: State, acts: seq<Action>)
    requires Runs(s, acts)
    ensures var u := After(s, acts);
      CountIn(u.stacks, AnyFrame()) + |u.answers| + Count(acts, IsFail())
      == CountIn(s.stacks, AnyFrame()) + |s.answers| + Count(acts, IsCall())
    ensures Objects(After(s, acts).built) == Objects(s.built) + Finished(acts)
    decreases |acts|
  {
    hide Apply, Enabled, CountIn, Objects;
    if acts != [] {
      var a := acts[0];
      StepAnswers(s, a);
      RunAnswers(Apply(s, a), acts[1..]);
      assert Finished(acts) == (match a case Finish(_, o) => [o] case _ => []) + Finished(acts[1..]);
    }
  }

  /** Whatever constructors do: every call so far is open, was answered, or was left with the
      exception of its constructor; and what was built is what constructors returned, in order. */
  lemma {:induction false} EveryCallAnswered(s: State, acts: seq<Action>)
    requires Init(s) && Runs(s, acts)
    ensures Count(acts, IsCall()) ==
      CountIn(After(s, acts).stacks, AnyFrame()) + |After(s, acts).answers| + Count(acts, IsFail())
    ensures Objects(After(s, acts).built) == Finished(acts)
  {
    hide Runs, After;
    CountNone(s.stacks, AnyFrame());
    RunAnswers(s, acts);
  }

  /** A call from inside a constructor, undisturbed: find no instance, take the lock once more,
      construct, return. */
  function NestedCall(t: nat, c: Class, o: Object): seq<Action> {
    [Call(t, c), Next(t), Next(t), Next(t), Finish(t, o), Next(t), Next(t)]
  }

  ghost predicate Inside(s: State, t: nat) {
    t < |s.stacks| && InConstructor(s.stacks[t]) && s.owner == HeldBy(t) && s.holds > 0
  }

  /** The state of a run in which only the top call of one thread moves. */
  ghost function WithTop(s: State, t: nat, frame: Frame, holds: nat): (r: State)
    requires t < |s.stacks|
    ensures |r.stacks| == |s.stacks| && r.stacks[t] == s.stacks[t] + [frame]
    ensures r.holds == holds && r.owner == s.owner && r.instances == s.instances
    ensures r.built == s.built && r.answers == s.answers
  {
    s.(stacks := s.stacks[t := s.stacks[t] + [frame]], holds := holds)
  }

  lemma {:induction false} MoveTop(s: State, t: nat, c: Class, p: Phase, q: Phase, holds: nat, more: nat)
    requires t < |s.stacks|
    ensures Goto(WithTop(s, t, Frame(c, p), holds), t, q) == WithTop(s, t, Frame(c, q), holds)
    ensures WithTop(s, t, Frame(c, q), holds).(holds := more) == WithTop(s, t, Frame(c, q), more)
    ensures Pop(WithTop(s, t, Frame(c, p), holds), t) == s.(holds := holds)
  {
    var stack := s.stacks[t];
    var from := WithTop(s, t, Frame(c, p), holds);
    assert from.stacks[t][..|stack|] == stack;
    assert from.stacks[t := stack + [Frame(c, q)]] == s.stacks[t := stack + [Frame(c, q)]];
    assert from.stacks[t := stack] == s.stacks;
  }

  ghost predicate Steps(s: State, acts: seq<Action>, u: State) {
    Runs(s, acts) && After(s, acts) == u
  }

  lemma {:induction false} OneStep(s: State, acts: seq<Action>, s1: State, rest: seq<Action>, u: State)
    requires acts != [] && rest == acts[1..]
    requires Enabled(s, acts[0]) && Apply(s, acts[0]) == s1 && Steps(s1, rest, u)
    ensures Steps(s, acts, u)
  {
  }

  lemma {:induction false} NestedBegins(s: State, t: nat, c: Class)
    requires Inside(s, t) && c !in s.instances
    ensures Steps(s, [Call(t, c), Next(t), Next(t), Next(t)], WithTop(s, t, Frame(c, Constructing), s.holds + 1))
  {
    var s1, s2 := WithTop(s, t, Frame(c, FirstCheck), s.holds), WithTop(s, t, Frame(c, WantLock), s.holds);
    var s3 := WithTop(s, t, Frame(c, SecondCheck), s.holds + 1);
    var s4 := WithTop(s, t, Frame(c, Constructing), s.holds + 1);
    assert Enabled(s, Call(t, c)) && Apply(s, Call(t, c)) == s1;
    hide WithTop, Goto, Pop;
    MoveTop(s, t, c, FirstCheck, WantLock, s.holds, s.holds);
    MoveTop(s, t, c, WantLock, SecondCheck, s.holds, s.holds + 1);
    MoveTop(s, t, c, SecondCheck, Constructing, s.holds + 1, 0);
    assert Enabled(s1, Next(t)) && Apply(s1, Next(t)) == s2;
    assert Enabled(s2, Next(t)) && Apply(s2, Next(t)) == s3;
    assert Enabled(s3, Next(t)) && Apply(s3, Next(t)) == s4;
    assert Steps(s4, [], s4);
    hide Apply, Enabled, Steps;
    OneStep(s3, [Next(t)], s4, [], s4);
    OneStep(s2, [Next(t), Next(t)], s3, [Next(t)], s4);
    OneStep(s1, [Next(t), Next(t), Next(t)], s2, [Next(t), Next(t)], s4);
    OneStep(s, [Call(t, c), Next(t), Next(t), Next(t)], s1, [Next(t), Next(t), Next(t)], s4);
  }

  /** The class has got its instance. */
  ghost function Grown(s: State, c: Class, o: Object): State {
    s.(instances := s.instances[c := o], built := s.built + [Built(c, o)])
  }

  lemma {:induction false} NestedEnds(s: State, t: nat, c: Class, o: Object)
    requires Inside(s, t) && c !in s.instances
    ensures Steps(WithTop(s, t, Frame(c, Constructing), s.holds + 1), [Finish(t, o), Next(t), Next(t)],
                  Grown(s, c, o).(answers := s.answers + [Answer(c, Some(o))]))
  {
    var done := Grown(s, c, o);
    var s4 := WithTop(s, t, Frame(c, Constructing), s.holds + 1);
    var s5, s6 := WithTop(done, t, Frame(c, Unlock), s.holds + 1), WithTop(done, t, Frame(c, Return), s.holds);
    var s7 := done.(answers := s.answers + [Answer(c, Some(o))]);
    assert Grown(WithTop(s, t, Frame(c, Unlock), s.holds + 1), c, o) == s5;
    hide WithTop, Goto, Pop;
    MoveTop(s, t, c, Constructing, Unlock, s.holds + 1, 0);
    MoveTop(done, t, c, Unlock, Return, s.holds + 1, s.holds);
    MoveTop(done, t, c, Return, Return, s.holds, 0);
    assert Enabled(s4, Finish(t, o)) && Apply(s4, Finish(t, o)) == s5;
    assert Enabled(s5, Next(t)) && Apply(s5, Next(t)) == s6;
    assert Enabled(s6, Next(t)) && Apply(s6, Next(t)) == s7;
    assert Steps(s7, [], s7);
    hide Apply, Enabled, Steps;
    OneStep(s6, [Next(t)], s7, [], s7);
    OneStep(s5, [Next(t), Next(t)], s6, [Next(t)], s7);
    OneStep(s4, [Finish(t, o), Next(t), Next(t)], s5, [Next(t), Next(t)], s7);
  }

  /** A call for a class that has its instance never waits: whoever holds the lock, it returns that
      instance and touches nothing else. */
  lemma {:induction false} FastPath(s: State, t: nat, c: Class)
    requires t < |s.stacks| && (s.stacks[t] == [] || InConstructor(s.stacks[t])) && c in s.instances
    ensures Steps(s, [Call(t, c), Next(t), Next(t)], s.(answers := s.answers + [Answer(c, Some(s.instances[c]))]))
  {
    var s1, s2 := WithTop(s, t, Frame(c, FirstCheck), s.holds), WithTop(s, t, Frame(c, Return), s.holds);
    var s3 := s.(answers := s.answers + [Answer(c, Some(s.instances[c]))]);
    assert Enabled(s, Call(t, c)) && Apply(s, Call(t, c)) == s1;
    hide WithTop, Goto, Pop;
    MoveTop(s, t, c, FirstCheck, Return, s.holds, s.holds);
    MoveTop(s, t, c, Return, Return, s.holds, s.holds);
    assert Enabled(s1, Next(t)) && Apply(s1, Next(t)) == s2;
    assert Enabled(s2, Next(t)) && Apply(s2, Next(t)) == s3;
    assert Steps(s3, [], s3);
    hide Apply, Enabled, Steps;
    OneStep(s2, [Next(t)], s3, [], s3);
    OneStep(s1, [Next(t), Next(t)], s2, [Next(t)], s3);
    OneStep(s, [Call(t, c), Next(t), Next(t)], s1, [Next(t), Next(t)], s3);
  }

  lemma {:induction false} StepsJoin(s: State, a: seq<Action>, u: State, b: seq<Action>, v: State)
    requires Steps(s, a, u) && Steps(u, b, v)
    ensures Steps(s, a + b, v)
    decreases |a|
  {
    hide Apply, Enabled;
    if a == [] {
      assert a + b == b;
    } else {
      assert (a + b)[0] == a[0] && (a + b)[1..] == a[1..] + b;
      StepsJoin(Apply(s, a[0]), a[1..], u, b, v);
    }
  }

  /** The condition is needed: whenever a constructor gets to ask for its own class, the class
      can be constructed twice, and the nested call returns an instance that does not stay. */
  lemma {:induction false} ReentrantConstructsTwice(s: State, t: nat, o: Object, p: Object)
    requires Inv(s) && t < |s.stacks| && InConstructor(s.stacks[t]) && o != p
    ensures var c, acts := Top(s.stacks[t]).cls, NestedCall(t, Top(s.stacks[t]).cls, o) + [Finish(t, p)];
      Runs(s, acts) && After(s, acts).built == s.built + [Built(c, o), Built(c, p)]
      && Answer(c, Some(o)) in After(s, acts).answers && Lookup(After(s, acts).instances, c) == Some(p)
  {
    var c := Top(s.stacks[t]).cls;
    InsideHolds(s, t);
    NestedBegins(s, t, c);
    NestedEnds(s, t, c, o);
    var begins, ends := [Call(t, c), Next(t), Next(t), Next(t)], [Finish(t, o), Next(t), Next(t)];
    assert begins + ends == NestedCall(t, c, o);
    var u := Grown(s, c, o).(answers := s.answers + [Answer(c, Some(o))]);
    var v := Apply(u, Finish(t, p));
    assert v.built == s.built + [Built(c, o), Built(c, p)];
    assert Steps(v, [], v);
    OneStep(u, [Finish(t, p)], v, [], v);
    hide Apply, Enabled, Inv, WithTop;
    StepsJoin(s, begins, WithTop(s, t, Frame(c, Constructing), s.holds + 1), ends, u);
    StepsJoin(s, begins + ends, u, [Finish(t, p)], v);
  }

  /** Whether a constructor may ask for its own class decides it: from any state in which one runs,
      classes stay constructed once in every continuation if and only if it may not. */
  lemma {:induction false} OnceExactlyIfNotReentrant(s: State, t: nat, reentrant: bool)
    requires Inv(s) && t < |s.stacks| && InConstructor(s.stacks[t])
    ensures (forall acts :: Runs(s, acts) && (reentrant || Disciplined(s, acts)) ==> BuiltOk(After(s, acts)))
      <==> !reentrant
  {
    hide Runs, After, Disciplined, LockOk, StackOk, AnswersOk;
    if reentrant {
      ReentrantConstructsTwice(s, t, 0, 1);
      var acts := NestedCall(t, Top(s.stacks[t]).cls, 0) + [Finish(t, 1)];
      var built, n := After(s, acts).built, |s.built|;
      assert built[n].cls == built[n + 1].cls;
    } else {
      forall acts | Runs(s, acts) && Disciplined(s, acts) ensures BuiltOk(After(s, acts)) {
        RunKeepsInv(s, acts);
      }
    }
  }

  lemma {:induction false} InsideHolds(s: State, t: nat)
    requires Inv(s) && t < |s.stacks| && InConstructor(s.stacks[t])
    ensures Inside(s, t) && Top(s.stacks[t]).cls !in s.instances
  {
    hide BuiltOk, AnswersOk;
    assert Holds(s.stacks[t]) == if s.owner == HeldBy(t) then s.holds else 0;
    assert StackOk(s.stacks[t], s.instances);
  }
}

/** `call_once` and `once_flag.reset`: a function run at most once until the flag is reset. A step
    system over any number of threads that use one flag through these two only. The lock is
    re-entrant and the function may use its own flag, so every thread has a stack of calls. */
module CallOnce {
  import opened Sequences

  datatype Phase =
    | WantCall        // call_once: about to take the lock
    | Deciding        // has the lock, about to test the flag
    | Running         // the flag was down: inside the function
    | Marking         // the function returned: about to set the flag
    | Skipping        // the flag was up: about to test for a stored exception
    | ResetTest       // reset: about to test `_ignore_reset`, without the lock
    | WantReset       // about to take the lock
    | Clearing        // has the lock, about to lower the flag

  datatype Event = Succeeded | Raised(exc: int) | Interrupted | Skipped | Reraised(exc: int) | Cleared

  datatype Holder = Free | HeldBy(tid: nat)

  datatype State = State(flag: bool, exc: Option<int>, ignoreReset: bool, owner: Holder, holds: nat,
                         stacks: seq<seq<Phase>>, trace: seq<Event>)

  datatype Action =
    | Call(tid: nat)                    // from outside, or from inside the function
    | Reset(tid: nat)
    | FuncReturns(tid: nat)
    | FuncRaises(tid: nat, exc: int)    // an Exception
    | FuncInterrupted(tid: nat)         // any other BaseException: not caught, not stored
    | Next(tid: nat)

  function Top(stack: seq<Phase>): Phase
    requires stack != []
  {
    stack[|stack| - 1]
  }

  predicate InFunction(stack: seq<Phase>) {
    stack != [] && Top(stack).Running?
  }

  predicate Enabled(s: State, a: Action) {
    a.tid < |s.stacks|
    && var stack := s.stacks[a.tid];
       match a
       case Call(_) => stack == [] || InFunction(stack)
       case Reset(_) => stack == [] || InFunction(stack)
       case Next(t) =>
         && stack != [] && !InFunction(stack)
         && (Top(stack).WantCall? || Top(stack).WantReset? ==> s.owner == Free || s.owner == HeldBy(t))
       case _ => InFunction(stack)
  }

  function SetStack(s: State, t: nat, stack: seq<Phase>): (u: State)
    requires t < |s.stacks|
    ensures |u.stacks| == |s.stacks| && u.stacks[t] == stack && u.owner == s.owner && u.holds == s.holds
    ensures u.flag == s.flag && u.exc == s.exc && u.ignoreReset == s.ignoreReset && u.trace == s.trace
  {
    s.(stacks := s.stacks[t := stack])
  }

  function Goto(s: State, t: nat, p: Phase): State
    requires t < |s.stacks| && s.stacks[t] != []
  {
    SetStack(s, t, s.stacks[t][..|s.stacks[t]| - 1] + [p])
  }

  function Pop(s: State, t: nat): State
    requires t < |s.stacks| && s.stacks[t] != []
  {
    SetStack(s, t, s.stacks[t][..|s.stacks[t]| - 1])
  }

  function Locked(s: State, t: nat): State {
    s.(owner := HeldBy(t), holds := s.holds + 1)
  }

  function Unlocked(s: State): State {
    if s.holds <= 1 then s.(owner := Free, holds := 0) else s.(holds := s.holds - 1)
  }

  /** Leave the `with` block and the call. */
  function Leave(s: State, t: nat): State
    requires t < |s.stacks| && s.stacks[t] != []
  {
    Unlocked(Pop(s, t))
  }

  function Log(s: State, e: Event): State {
    s.(trace := s.trace + [e])
  }

  function StepNext(s: State, t: nat): State
    requires Enabled(s, Next(t))
  {
    match Top(s.stacks[t])
    case WantCall => Locked(Goto(s, t, Deciding), t)
    case Deciding => if s.flag then Goto(s, t, Skipping) else Goto(s, t, Running).(exc := None)
    case Marking => Leave(s, t).(flag := true, ignoreReset := false)
    case Skipping => Log(Leave(s, t), if s.exc.Some? then Reraised(s.exc.value) else Skipped)
    case ResetTest => if s.ignoreReset then Pop(s, t) else Goto(s, t, WantReset)
    case WantReset => Locked(Goto(s, t, Clearing), t)
    case Clearing => Log(Leave(s, t), Cleared).(flag := false, ignoreReset := false)
    case Running => s
  }

  function Apply(s: State, a: Action): (u: State)
    requires Enabled(s, a)
    ensures |u.stacks| == |s.stacks|
  {
    match a
    case Call(t) => SetStack(s, t, s.stacks[t] + [WantCall])
    case Reset(t) => SetStack(s, t, s.stacks[t] + [ResetTest])
    case FuncReturns(t) => Log(Goto(s, t, Marking), Succeeded)
    case FuncRaises(t, e) => Log(Leave(s, t), Raised(e)).(exc := Some(e))
    case FuncInterrupted(t) => Log(Leave(s, t), Interrupted)
    case Next(t) => StepNext(s, t)
  }

  /** The function does not call `call_once` on its own flag; it may reset the flag. */
  predicate NotReentrant(s: State, a: Action)
    requires Enabled(s, a)
  {
    a.Call? ==> s.stacks[a.tid] == []
  }

  ghost predicate Init(s: State) {
    && !s.flag && s.exc == None && !s.ignoreReset && s.owner == Free && s.holds == 0 && s.trace == []
    && forall t :: 0 <= t < |s.stacks| ==> s.stacks[t] == []
  }

  predicate Runs(s: State, acts: seq<Action>)
    decreases |acts|
  {
    acts == [] || (Enabled(s, acts[0]) && Runs(Apply(s, acts[0]), acts[1..]))
  }

  function After(s: State, acts: seq<Action>): State
    requires Runs(s, acts)
    decreases |acts|
  {
    if acts == [] then s else After(Apply(s, acts[0]), acts[1..])
  }

  predicate Disciplined(s: State, acts: seq<Action>)
    requires Runs(s, acts)
    decreases |acts|
  {
    acts == [] || (NotReentrant(s, acts[0]) && Disciplined(Apply(s, acts[0]), acts[1..]))
  }

  // ---------------------------------------------------------------- what a trace says

  /** The function succeeded and the flag has not been lowered since. */
  ghost predicate Live(trace: seq<Event>) {
    exists i :: 0 <= i < |trace| && trace[i] == Succeeded && NoReset(trace, i)
  }

  ghost predicate NoReset(trace: seq<Event>, i: nat) {
    forall k :: i < k < |trace| ==> trace[k] != Cleared
  }

  /** The function ran only when it had no live success, was skipped only when it had one, and
      no call raised the exception of an earlier one. */
  ghost predicate TraceOk(trace: seq<Event>) {
    forall j :: 0 <= j < |trace| ==>
      (trace[j].Succeeded? || trace[j].Raised? || trace[j].Interrupted? ==> !Live(trace[..j]))
      && (trace[j].Skipped? ==> Live(trace[..j])) && !trace[j].Reraised?
  }

  lemma {:induction false} LiveSnoc(trace: seq<Event>, e: Event)
    ensures Live(trace + [e]) <==> e.Succeeded? || (Live(trace) && !e.Cleared?)
  {
    var more := trace + [e];
    if e.Succeeded? {
      assert more[|trace|] == Succeeded && NoReset(more, |trace|);
    } else if Live(trace) && !e.Cleared? {
      var i: nat :| i < |trace| && trace[i] == Succeeded && NoReset(trace, i);
      assert more[i] == Succeeded && NoReset(more, i);
    } else if Live(more) {
      var i: nat :| i < |more| && more[i] == Succeeded && NoReset(more, i);
      assert more[|trace|] == e;
      assert trace[i] == Succeeded;
      forall k | i < k < |trace| ensures trace[k] != Cleared {
        assert more[k] == trace[k];
      }
      assert NoReset(trace, i);
    }
  }

  lemma {:induction false} TraceOkSnoc(trace: seq<Event>, e: Event)
    requires TraceOk(trace) && !e.Reraised?
    requires e.Succeeded? || e.Raised? || e.Interrupted? ==> !Live(trace)
    requires e.Skipped? ==> Live(trace)
    ensures TraceOk(trace + [e])
  {
    hide Live;
    var more := trace + [e];
    forall j | 0 <= j < |more|
      ensures (more[j].Succeeded? || more[j].Raised? || more[j].Interrupted? ==> !Live(more[..j]))
        && (more[j].Skipped? ==> Live(more[..j])) && !more[j].Reraised?
    {
      if j < |trace| {
        assert more[..j] == trace[..j] && more[j] == trace[j];
      } else {
        assert more[..j] == trace;
      }
    }
  }

  // ---------------------------------------------------------------- the invariant

  predicate UnderLock(p: Phase) {
    p.Deciding? || p.Running? || p.Marking? || p.Skipping? || p.Clearing?
  }

  predicate InReset(p: Phase) {
    p.ResetTest? || p.WantReset? || p.Clearing?
  }

  /** A call, or the function running and a reset on top of it. */
  predicate StackOk(stack: seq<Phase>) {
    |stack| <= 1 || (|stack| == 2 && stack[0].Running? && InReset(stack[1]))
  }

  /** How often a thread with this stack has taken the lock. */
  function Holds(stack: seq<Phase>): nat {
    if stack == [] then 0 else if UnderLock(Top(stack)) then |stack| else |stack| - 1
  }

  ghost predicate ThreadLockOk(s: State, t: nat)
    requires t < |s.stacks|
  {
    StackOk(s.stacks[t]) && Holds(s.stacks[t]) == if s.owner == HeldBy(t) then s.holds else 0
  }

  ghost predicate HolderOk(s: State) {
    (s.owner == Free ==> s.holds == 0) && (s.owner.HeldBy? ==> s.owner.tid < |s.stacks| && s.holds > 0)
  }

  ghost predicate LockOk(s: State) {
    HolderOk(s) && forall t: nat :: t < |s.stacks| ==> ThreadLockOk(s, t)
  }

  /** What a call that has the lock knows. */
  ghost predicate PhaseOk(p: Phase, s: State) {
    match p
    case Running => !s.flag && s.exc == None && !Live(s.trace)
    case Marking => !s.flag && s.exc == None && Live(s.trace)
    case Skipping => s.flag && Live(s.trace)
    case _ => s.flag <==> Live(s.trace)
  }

  ghost predicate OwnerOk(s: State) {
    if s.owner.HeldBy? && s.owner.tid < |s.stacks| && s.stacks[s.owner.tid] != []
    then PhaseOk(s.stacks[s.owner.tid][0], s)
    else s.flag <==> Live(s.trace)
  }

  ghost predicate Inv(s: State) {
    LockOk(s) && OwnerOk(s) && TraceOk(s.trace) && !s.ignoreReset && (s.flag ==> s.exc == None)
  }

  lemma {:induction false} MoverLockOk(s: State, a: Action)
    requires Enabled(s, a) && NotReentrant(s, a) && ThreadLockOk(s, a.tid) && (s.owner == Free ==> s.holds == 0)
    ensures ThreadLockOk(Apply(s, a), a.tid)
  {
    hide SetStack;
  }

  /** The others keep their stacks, and the lock if one of them has it. */
  lemma {:induction false} OthersHold(s: State, a: Action, t: nat)
    requires Enabled(s, a) && ThreadLockOk(s, a.tid) && t < |s.stacks| && t != a.tid
    ensures var u := Apply(s, a);
      u.stacks[t] == s.stacks[t] && (u.owner == HeldBy(t) <==> s.owner == HeldBy(t))
      && (s.owner == HeldBy(t) ==> u.holds == s.holds)
  {
  }

  lemma {:induction false} NextHolder(s: State, t: nat)
    requires HolderOk(s) && Enabled(s, Next(t))
    ensures HolderOk(StepNext(s, t))
  {
    hide Top, SetStack;
  }

  lemma {:induction false} StepKeepsHolder(s: State, a: Action)
    requires HolderOk(s) && Enabled(s, a)
    ensures HolderOk(Apply(s, a))
  {
    hide Top, SetStack, StepNext;
    if a.Next? {
      NextHolder(s, a.tid);
    }
  }

  lemma {:induction false} StepKeepsLock(s: State, a: Action)
    requires LockOk(s) && Enabled(s, a) && NotReentrant(s, a)
    ensures LockOk(Apply(s, a))
  {
    hide Apply, NotReentrant, StackOk, Holds;
    var u := Apply(s, a);
    StepKeepsHolder(s, a);
    assert ThreadLockOk(s, a.tid);
    MoverLockOk(s, a);
    forall t: nat | t < |u.stacks| ensures ThreadLockOk(u, t) {
      assert ThreadLockOk(s, t);
      if t != a.tid {
        OthersHold(s, a, t);
      }
    }
  }

  lemma {:induction false} StepKeepsOwner(s: State, a: Action)
    requires Inv(s) && Enabled(s, a) && NotReentrant(s, a)
    ensures OwnerOk(Apply(s, a))
  {
    hide Live, TraceOk, SetStack;
    var u := Apply(s, a);
    assert ThreadLockOk(s, a.tid);
    if u.owner.HeldBy? && u.owner.tid < |s.stacks| && u.owner.tid != a.tid {
      OthersHold(s, a, u.owner.tid);
    }
    if u.trace != s.trace {
      assert u.trace == s.trace + [u.trace[|s.trace|]];
      LiveSnoc(s.trace, u.trace[|s.trace|]);
    }
  }

  lemma {:induction false} StepKeepsTrace(s: State, a: Action)
    requires Inv(s) && Enabled(s, a) && NotReentrant(s, a)
    ensures var u := Apply(s, a); TraceOk(u.trace) && !u.ignoreReset && (u.flag ==> u.exc == None)
  {
    hide Live, TraceOk;
    var u := Apply(s, a);
    assert ThreadLockOk(s, a.tid);
    if u.trace != s.trace {
      assert u.trace == s.trace + [u.trace[|s.trace|]];
      TraceOkSnoc(s.trace, u.trace[|s.trace|]);
    }
  }

  lemma {:induction false} StepKeepsInv(s: State, a: Action)
    requires Inv(s) && Enabled(s, a) && NotReentrant(s, a)
    ensures Inv(Apply(s, a))
  {
    hide LockOk, OwnerOk, TraceOk, Apply, Enabled;
    StepKeepsLock(s, a);
    StepKeepsOwner(s, a);
    StepKeepsTrace(s, a);
  }

  lemma {:induction false} RunKeepsInv(s: State, acts: seq<Action>)
    requires Inv(s) && Runs(s, acts) && Disciplined(s, acts)
    ensures Inv(After(s, acts))
    decreases |acts|
  {
    hide Inv, Apply, Enabled, NotReentrant;
    if acts != [] {
      StepKeepsInv(s, acts[0]);
      RunKeepsInv(Apply(s, acts[0]), acts[1..]);
    }
  }

  lemma {:induction false} InitInv(s: State)
    requires Init(s)
    ensures Inv(s)
  {
  }

  lemma {:induction false} LiveUntil(trace: seq<Event>, i: nat, j: nat)
    requires i < j <= |trace| && trace[i] == Succeeded && forall k :: i < k < j ==> trace[k] != Cleared
    ensures Live(trace[..j])
  {
    assert trace[..j][i] == Succeeded && NoReset(trace[..j], i);
  }

  // ---------------------------------------------------------------- main results

  /** Unless the function calls itself through its flag, it succeeds at most once between resets. */
  lemma {:induction false} OnceBetweenResets(s: State, acts: seq<Action>, i: nat, j: nat)
    requires Init(s) && Runs(s, acts) && Disciplined(s, acts)
    requires i < j < |After(s, acts).trace|
    requires After(s, acts).trace[i] == Succeeded && After(s, acts).trace[j] == Succeeded
    ensures exists k :: i < k < j && After(s, acts).trace[k] == Cleared
  {
    hide Init, Runs, After, Disciplined, LockOk, OwnerOk;
    InitInv(s);
    RunKeepsInv(s, acts);
    var trace := After(s, acts).trace;
    if forall k :: i < k < j ==> trace[k] != Cleared {
      LiveUntil(trace, i, j);
      assert false;
    }
  }

  /** A call that returns without running the function does so after a success that no reset has
      followed; no call raises the exception of an earlier one. */
  lemma {:induction false} SkippedAfterSuccess(s: State, acts: seq<Action>, j: nat)
    requires Init(s) && Runs(s, acts) && Disciplined(s, acts) && j < |After(s, acts).trace|
    ensures !After(s, acts).trace[j].Reraised?
    ensures After(s, acts).trace[j].Skipped? ==>
      exists i :: 0 <= i < j && After(s, acts).trace[i] == Succeeded && NoReset(After(s, acts).trace[..j], i)
  {
    hide Init, Runs, After, Disciplined, LockOk, OwnerOk, NoReset;
    InitInv(s);
    RunKeepsInv(s, acts);
  }

  /** A call that gets to decide runs the function exactly when it has no live success, so after
      a failed attempt the next call runs it again. */
  lemma {:induction false} RunsAgain(s: State, acts: seq<Action>, t: nat)
    requires Init(s) && Runs(s, acts) && Disciplined(s, acts)
    requires t < |After(s, acts).stacks| && After(s, acts).stacks[t] == [Deciding]
    ensures Apply(After(s, acts), Next(t)).stacks[t] == [Running] <==> !Live(After(s, acts).trace)
  {
    hide Init, Runs, After, Disciplined, Live, TraceOk;
    InitInv(s);
    RunKeepsInv(s, acts);
    var u := After(s, acts);
    assert ThreadLockOk(u, t);
    assert forall p: Phase :: [Deciding][..0] + [p] == [p];
  }

  /** A failed or interrupted attempt leaves the function callable; what an Exception was, is kept. */
  lemma {:induction false} FailureLeavesCallable(s: State, acts: seq<Action>, a: Action)
    requires Init(s) && Runs(s, acts) && Disciplined(s, acts) && Enabled(After(s, acts), a)
    requires a.FuncRaises? || a.FuncInterrupted?
    ensures !Live(Apply(After(s, acts), a).trace) && !Apply(After(s, acts), a).flag
    ensures Apply(After(s, acts), a).exc == if a.FuncRaises? then Some(a.exc) else None
  {
    hide Init, Runs, After, Disciplined, Live, TraceOk;
    InitInv(s);
    RunKeepsInv(s, acts);
    var u := After(s, acts);
    RunningOwns(u, a.tid);
    LiveSnoc(u.trace, if a.FuncRaises? then Raised(a.exc) else Interrupted);
  }

  /** A thread inside the function has the lock, and nothing is on the stack but the call. */
  lemma {:induction false} RunningOwns(s: State, t: nat)
    requires Inv(s) && t < |s.stacks| && InFunction(s.stacks[t])
    ensures s.stacks[t] == [Running] && s.owner == HeldBy(t) && s.holds == 1
    ensures !s.flag && s.exc == None && !Live(s.trace)
  {
    hide Live, TraceOk;
    assert ThreadLockOk(s, t);
  }

  /** As long as a call is open, some thread can go on. */
  lemma {:induction false} NoDeadlock(s: State, t: nat)
    requires Inv(s) && t < |s.stacks| && s.stacks[t] != []
    ensures exists a :: Enabled(s, a) && !a.Call? && !a.Reset?
  {
    hide OwnerOk, TraceOk;
    var u := if s.owner.HeldBy? then s.owner.tid else t;
    assert ThreadLockOk(s, u);
    assert Enabled(s, if InFunction(s.stacks[u]) then FuncReturns(u) else Next(u));
  }

  // ---------------------------------------------------------------- every call is answered

  function Calling(): Phase -> bool {
    (p: Phase) => p.WantCall? || p.Deciding? || p.Running? || p.Skipping?
  }

  function Resetting(): Phase -> bool {
    (p: Phase) => p.ResetTest? || p.WantReset? || p.Clearing?
  }

  function IsCleared(): Event -> bool {
    (e: Event) => e.Cleared?
  }

  function IsAnswer(): Event -> bool {
    (e: Event) => !e.Cleared?
  }

  function IsCall(): Action -> bool {
    (a: Action) => a.Call?
  }

  function IsReset(): Action -> bool {
    (a: Action) => a.Reset?
  }

  /** What a step takes off the stack of its thread, what it puts there, and the event it appends. */
  datatype Change = Change(off: Option<Phase>, on: Option<Phase>, event: Option<Event>)

  function ChangeOf(s: State, a: Action): Change
    requires Enabled(s, a)
  {
    match a
    case Call(_) => Change(None, Some(WantCall), None)
    case Reset(_) => Change(None, Some(ResetTest), None)
    case FuncReturns(_) => Change(Some(Running), Some(Marking), Some(Succeeded))
    case FuncRaises(_, e) => Change(Some(Running), None, Some(Raised(e)))
    case FuncInterrupted(_) => Change(Some(Running), None, Some(Interrupted))
    case Next(t) => NextChange(s, Top(s.stacks[t]))
  }

  function NextChange(s: State, p: Phase): Change {
    match p
    case WantCall => Change(Some(p), Some(Deciding), None)
    case Deciding => Change(Some(p), Some(if s.flag then Skipping else Running), None)
    case Marking => Change(Some(p), None, None)
    case Skipping => Change(Some(p), None, Some(if s.exc.Some? then Reraised(s.exc.value) else Skipped))
    case ResetTest => Change(Some(p), Some(WantReset), None)
    case WantReset => Change(Some(p), Some(Clearing), None)
    case Clearing => Change(Some(p), None, Some(Cleared))
    case Running => Change(None, None, None)
  }

  function Weight<T>(x: Option<T>, p: T -> bool): nat {
    if x.Some? then One(p(x.value)) else 0
  }

  function AsSeq<T>(x: Option<T>): seq<T> {
    if x.Some? then [x.value] else []
  }

  lemma {:induction false} CountAfter<T>(s: seq<T>, x: Option<T>, p: T -> bool)
    ensures Count(s + AsSeq(x), p) == Count(s, p) + Weight(x, p)
  {
    CountConcat(s, AsSeq(x), p);
    if x.Some? {
      CountOne(x.value, p);
    }
  }

  lemma {:induction false} ChangeBalanced(s: State, a: Action)
    requires Enabled(s, a)
    ensures var c := ChangeOf(s, a);
      One(a.Call?) + Weight(c.off, Calling()) == Weight(c.on, Calling()) + Weight(c.event, IsAnswer())
      && One(a.Reset?) + Weight(c.off, Resetting()) == Weight(c.on, Resetting()) + Weight(c.event, IsCleared())
  {
  }

  lemma {:induction false} NextChanges(s: State, t: nat)
    requires Enabled(s, Next(t)) && !s.ignoreReset
    ensures var u, c, stack := StepNext(s, t), NextChange(s, Top(s.stacks[t])), s.stacks[t];
      !u.ignoreReset && u.trace == s.trace + AsSeq(c.event) && u.stacks == s.stacks[t := u.stacks[t]]
      && c.off == Some(Top(stack)) && u.stacks[t] == stack[..|stack| - 1] + AsSeq(c.on)
  {
    var rest := s.stacks[t][..|s.stacks[t]| - 1];
    assert rest + [] == rest;
  }

  lemma {:induction false} StepChanges(s: State, a: Action) returns (rest: seq<Phase>)
    requires Enabled(s, a) && !s.ignoreReset
    ensures var u, c := Apply(s, a), ChangeOf(s, a);
      !u.ignoreReset && u.trace == s.trace + AsSeq(c.event) && u.stacks == s.stacks[a.tid := u.stacks[a.tid]]
      && s.stacks[a.tid] == rest + AsSeq(c.off) && u.stacks[a.tid] == rest + AsSeq(c.on)
  {
    hide StepNext, NextChange;
    var stack := s.stacks[a.tid];
    if a.Call? || a.Reset? {
      rest := stack;
      assert rest + [] == rest;
    } else {
      rest := stack[..|stack| - 1];
      assert stack == rest + [Top(stack)] && rest + [] == rest;
      if a.Next? {
        NextChanges(s, a.tid);
        hide Enabled;
      }
    }
  }

  /** Calls and resets are opened, and closed with one event each. */
  lemma {:induction false} StepAnswers(s: State, a: Action)
    requires Enabled(s, a) && !s.ignoreReset
    ensures var u := Apply(s, a);
      !u.ignoreReset
      && CountIn(u.stacks, Calling()) + Count(u.trace, IsAnswer())
         == CountIn(s.stacks, Calling()) + Count(s.trace, IsAnswer()) + One(a.Call?)
      && CountIn(u.stacks, Resetting()) + Count(u.trace, IsCleared())
         == CountIn(s.stacks, Resetting()) + Count(s.trace, IsCleared()) + One(a.Reset?)
  {
    var u, c := Apply(s, a), ChangeOf(s, a);
    var rest := StepChanges(s, a);
    ChangeBalanced(s, a);
    hide Apply, ChangeOf, Count, CountIn, Weight;
    CountUpdate(s.stacks, a.tid, u.stacks[a.tid], Calling());
    CountUpdate(s.stacks, a.tid, u.stacks[a.tid], Resetting());
    CountAfter(rest, c.off, Calling());
    CountAfter(rest, c.on, Calling());
    CountAfter(rest, c.off, Resetting());
    CountAfter(rest, c.on, Resetting());
    CountAfter(s.trace, c.event, IsAnswer());
    CountAfter(s.trace, c.event, IsCleared());
  }

  lemma {:induction false} RunAnswers(s: State, acts: seq<Action>)
    requires Runs(s, acts) && !s.ignoreReset
    ensures var u := After(s, acts);
      CountIn(u.stacks, Calling()) + Count(u.trace, IsAnswer())
      == CountIn(s.stacks, Calling()) + Count(s.trace, IsAnswer()) + Count(acts, IsCall())
    ensures var u := After(s, acts);
      CountIn(u.stacks, Resetting()) + Count(u.trace, IsCleared())
      == CountIn(s.stacks, Resetting()) + Count(s.trace, IsCleared()) + Count(acts, IsReset())
    decreases |acts|
  {
    hide Apply, Enabled, CountIn;
    if acts != [] {
      StepAnswers(s, acts[0]);
      RunAnswers(Apply(s, acts[0]), acts[1..]);
    }
  }

  /** Whatever the function does: every call so far is open, or was answered by running the function
      to an end or by being skipped; every reset so far is open or has lowered the flag. */
  lemma {:induction false} EveryCallAnswered(s: State, acts: seq<Action>)
    requires Init(s) && Runs(s, acts)
    ensures Count(acts, IsCall()) == CountIn(After(s, acts).stacks, Calling()) + Count(After(s, acts).trace, IsAnswer())
    ensures Count(acts, IsReset()) == CountIn(After(s, acts).stacks, Resetting()) + Count(After(s, acts).trace, IsCleared())
  {
    hide Runs, After;
    CountNone(s.stacks, Calling());
    CountNone(s.stacks, Resetting());
    RunAnswers(s, acts);
  }

  // ---------------------------------------------------------------- a function that calls itself

  /** A state in which only this thread has moved. */
  function Moved(s: State, t: nat, stack: seq<Phase>, holds: nat, flag: bool, exc: Option<int>, events: seq<Event>): State
    requires t < |s.stacks|
  {
    State(flag, exc, false, if holds == 0 then Free else HeldBy(t), holds, s.stacks[t := stack], s.trace + events)
  }

  ghost predicate Steps(s: State, acts: seq<Action>, u: State) {
    Runs(s, acts) && After(s, acts) == u
  }

  lemma {:induction false} OneStep(s: State, acts: seq<Action>, s1: State, rest: seq<Action>, u: State)
    requires acts != [] && rest == acts[1..]
    requires Enabled(s, acts[0]) && Apply(s, acts[0]) == s1 && Steps(s1, rest, u)
    ensures Steps(s, acts, u)
  {
  }

  lemma {:induction false} StepsJoin(s: State, a: seq<Action>, u: State, b: seq<Action>, v: State)
    requires Steps(s, a, u) && Steps(u, b, v)
    ensures Steps(s, a + b, v)
    decreases |a|
  {
    hide Apply, Enabled;
    if a == [] {
      assert a + b == b;
    } else {
      assert (a + b)[0] == a[0] && (a + b)[1..] == a[1..] + b;
      StepsJoin(Apply(s, a[0]), a[1..], u, b, v);
    }
  }

  /** A call from inside the function, undisturbed: the flag is down, so the function runs again. */
  function NestedCall(t: nat): seq<Action> {
    [Call(t), Next(t), Next(t), FuncReturns(t), Next(t)]
  }

  lemma {:induction false} MovedSets(s: State, t: nat, a: seq<Phase>, b: seq<Phase>)
    requires t < |s.stacks|
    ensures s.stacks[t := a][t := b] == s.stacks[t := b]
  {
  }

  lemma {:induction false} NestedBegins(s: State, t: nat)
    requires t < |s.stacks|
    ensures Steps(Moved(s, t, [Running], 1, false, None, []), [Call(t), Next(t), Next(t)],
                  Moved(s, t, [Running, Running], 2, false, None, []))
  {
    var s0 := Moved(s, t, [Running], 1, false, None, []);
    var s1 := Moved(s, t, [Running, WantCall], 1, false, None, []);
    var s2 := Moved(s, t, [Running, Deciding], 2, false, None, []);
    var s3 := Moved(s, t, [Running, Running], 2, false, None, []);
    Stacked(WantCall);
    Stacked(Deciding);
    Stacked(Running);
    MovedSets(s, t, [Running], [Running, WantCall]);
    MovedSets(s, t, [Running, WantCall], [Running, Deciding]);
    MovedSets(s, t, [Running, Deciding], [Running, Running]);
    assert Enabled(s0, Call(t)) && Apply(s0, Call(t)) == s1;
    assert Enabled(s1, Next(t)) && Apply(s1, Next(t)) == s2;
    assert Enabled(s2, Next(t)) && Apply(s2, Next(t)) == s3;
    assert Steps(s3, [], s3);
    hide Apply, Enabled, Steps, Moved;
    OneStep(s2, [Next(t)], s3, [], s3);
    OneStep(s1, [Next(t), Next(t)], s2, [Next(t)], s3);
    OneStep(s0, [Call(t), Next(t), Next(t)], s1, [Next(t), Next(t)], s3);
  }

  lemma {:induction false} Stacked(p: Phase)
    ensures [Running] + [p] == [Running, p] && [Running, p][..1] == [Running]
  {
  }

  lemma {:induction false} NestedEnds(s: State, t: nat)
    requires t < |s.stacks|
    ensures Steps(Moved(s, t, [Running, Running], 2, false, None, []), [FuncReturns(t), Next(t)],
                  Moved(s, t, [Running], 1, true, None, [Succeeded]))
  {
    var s3 := Moved(s, t, [Running, Running], 2, false, None, []);
    var s4 := Moved(s, t, [Running, Marking], 2, false, None, [Succeeded]);
    var s5 := Moved(s, t, [Running], 1, true, None, [Succeeded]);
    Stacked(Running);
    Stacked(Marking);
    MovedSets(s, t, [Running, Running], [Running, Marking]);
    MovedSets(s, t, [Running, Marking], [Running]);
    assert s.trace + [] + [Succeeded] == s.trace + [Succeeded];
    assert Enabled(s3, FuncReturns(t)) && Apply(s3, FuncReturns(t)) == s4;
    assert Enabled(s4, Next(t)) && Apply(s4, Next(t)) == s5;
    assert Steps(s5, [], s5);
    hide Apply, Enabled, Steps, Moved;
    OneStep(s4, [Next(t)], s5, [], s5);
    OneStep(s3, [FuncReturns(t), Next(t)], s4, [Next(t)], s5);
  }

  lemma {:induction false} NestedRuns(s: State, t: nat)
    requires Inv(s) && t < |s.stacks| && InFunction(s.stacks[t])
    ensures Steps(s, NestedCall(t), Moved(s, t, [Running], 1, true, None, [Succeeded]))
  {
    RunningOwns(s, t);
    assert s.trace + [] == s.trace && s.stacks[t := [Running]] == s.stacks;
    assert s == Moved(s, t, [Running], 1, false, None, []);
    NestedBegins(s, t);
    NestedEnds(s, t);
    hide Inv, Steps, Moved;
    StepsJoin(s, [Call(t), Next(t), Next(t)], Moved(s, t, [Running, Running], 2, false, None, []),
              [FuncReturns(t), Next(t)], Moved(s, t, [Running], 1, true, None, [Succeeded]));
    assert [Call(t), Next(t), Next(t)] + [FuncReturns(t), Next(t)] == NestedCall(t);
  }

  /** The condition of `OnceBetweenResets` is needed: whenever the function gets to call itself
      through its flag, it can succeed twice in a row. */
  lemma {:induction false} NestedSucceedsTwice(s: State, t: nat)
    requires Inv(s) && t < |s.stacks| && InFunction(s.stacks[t])
    ensures var acts := NestedCall(t) + [FuncReturns(t)];
      Runs(s, acts) && After(s, acts).trace == s.trace + [Succeeded, Succeeded]
  {
    NestedRuns(s, t);
    var u := Moved(s, t, [Running], 1, true, None, [Succeeded]);
    var v := Apply(u, FuncReturns(t));
    assert v.trace == s.trace + [Succeeded, Succeeded];
    assert Steps(v, [], v);
    OneStep(u, [FuncReturns(t)], v, [], v);
    hide Apply, Enabled, Inv, Moved;
    StepsJoin(s, NestedCall(t), u, [FuncReturns(t)], v);
  }

  /** Whether the function may call itself through its flag decides it: from any state in which it
      runs, the trace stays right in every continuation if and only if it may not. */
  lemma {:induction false} RightExactlyIfNotReentrant(s: State, t: nat, reentrant: bool)
    requires Inv(s) && t < |s.stacks| && InFunction(s.stacks[t])
    ensures (forall acts :: Runs(s, acts) && (reentrant || Disciplined(s, acts)) ==> TraceOk(After(s, acts).trace))
      <==> !reentrant
  {
    hide Runs, After, Disciplined, LockOk, OwnerOk, TraceOk;
    if reentrant {
      NestedSucceedsTwice(s, t);
      SucceededTwice(s.trace);
    } else {
      forall acts | Runs(s, acts) && Disciplined(s, acts) ensures TraceOk(After(s, acts).trace) {
        RunKeepsInv(s, acts);
      }
    }
  }

  lemma {:induction false} SucceededTwice(trace: seq<Event>)
    ensures !TraceOk(trace + [Succeeded, Succeeded])
  {
    var more, n := trace + [Succeeded, Succeeded], |trace|;
    LiveUntil(more, n, n + 1);
    assert more[n + 1] == Succeeded;
  }

  /** So is that of `FailureLeavesCallable`: if the outer call then fails, the flag stays up. */
  lemma {:induction false} NestedFailureStaysUp(s: State, t: nat, exc: int)
    requires Inv(s) && t < |s.stacks| && InFunction(s.stacks[t])
    ensures var acts := NestedCall(t) + [FuncRaises(t, exc)];
      Steps(s, acts, Moved(s, t, [], 0, true, Some(exc), [Succeeded, Raised(exc)]))
      && Live(After(s, acts).trace)
  {
    NestedRuns(s, t);
    var u := Moved(s, t, [Running], 1, true, None, [Succeeded]);
    var v := Moved(s, t, [], 0, true, Some(exc), [Succeeded, Raised(exc)]);
    MovedSets(s, t, [Running], []);
    assert [Running][..0] == [] && s.trace + [Succeeded] + [Raised(exc)] == s.trace + [Succeeded, Raised(exc)];
    assert Enabled(u, FuncRaises(t, exc)) && Apply(u, FuncRaises(t, exc)) == v;
    assert Steps(v, [], v);
    OneStep(u, [FuncRaises(t, exc)], v, [], v);
    assert v.trace[|s.trace|] == Succeeded && NoReset(v.trace, |s.trace|);
    hide Apply, Enabled, Inv, Moved;
    StepsJoin(s, NestedCall(t), u, [FuncRaises(t, exc)], v);
  }

  /** And that of `SkippedAfterSuccess`: the next call raises the exception of the failed one. */
  lemma {:induction false} NestedFailureIsRaisedAgain(s: State, t: nat, exc: int)
    requires Inv(s) && t < |s.stacks| && InFunction(s.stacks[t])
    ensures var acts := NestedCall(t) + [FuncRaises(t, exc)] + [Call(t), Next(t), Next(t), Next(t)];
      Runs(s, acts) && After(s, acts).trace == s.trace + [Succeeded, Raised(exc), Reraised(exc)]
  {
    var events := [Succeeded, Raised(exc)];
    var v, z := Moved(s, t, [], 0, true, Some(exc), events), Moved(s, t, [], 0, true, Some(exc), events + [Reraised(exc)]);
    NestedFailureStaysUp(s, t, exc);
    SkipRaises(s, t, exc, events);
    assert s.trace + (events + [Reraised(exc)]) == s.trace + [Succeeded, Raised(exc), Reraised(exc)];
    hide Inv;
    StepsJoin(s, NestedCall(t) + [FuncRaises(t, exc)], v, [Call(t), Next(t), Next(t), Next(t)], z);
  }

  /** A call that finds the flag up and an exception stored. */
  lemma {:induction false} SkipRaises(s: State, t: nat, exc: int, events: seq<Event>)
    requires t < |s.stacks|
    ensures Steps(Moved(s, t, [], 0, true, Some(exc), events), [Call(t), Next(t), Next(t), Next(t)],
                  Moved(s, t, [], 0, true, Some(exc), events + [Reraised(exc)]))
  {
    var s0 := Moved(s, t, [], 0, true, Some(exc), events);
    var s1 := Moved(s, t, [WantCall], 0, true, Some(exc), events);
    var s2 := Moved(s, t, [Deciding], 1, true, Some(exc), events);
    var s3 := Moved(s, t, [Skipping], 1, true, Some(exc), events);
    var s4 := Moved(s, t, [], 0, true, Some(exc), events + [Reraised(exc)]);
    MovedSets(s, t, [], [WantCall]);
    MovedSets(s, t, [WantCall], [Deciding]);
    MovedSets(s, t, [Deciding], [Skipping]);
    MovedSets(s, t, [Skipping], []);
    Single(WantCall);
    Single(Deciding);
    Single(Skipping);
    assert s2.stacks[t] == [Deciding] && s2.stacks[t][..0] + [Skipping] == [Skipping];
    assert Goto(s2, t, Skipping) == s3;
    assert s.trace + events + [Reraised(exc)] == s.trace + (events + [Reraised(exc)]);
    assert Enabled(s0, Call(t)) && Apply(s0, Call(t)) == s1;
    assert Enabled(s1, Next(t)) && Apply(s1, Next(t)) == s2;
    assert Enabled(s2, Next(t)) && Apply(s2, Next(t)) == s3;
    assert Enabled(s3, Next(t)) && Apply(s3, Next(t)) == s4;
    assert Steps(s4, [], s4);
    hide Apply, Enabled, Steps, Moved;
    OneStep(s3, [Next(t)], s4, [], s4);
    OneStep(s2, [Next(t), Next(t)], s3, [Next(t)], s4);
    OneStep(s1, [Next(t), Next(t), Next(t)], s2, [Next(t), Next(t)], s4);
    OneStep(s0, [Call(t), Next(t), Next(t), Next(t)], s1, [Next(t), Next(t), Next(t)], s4);
  }

  lemma {:induction false} Single(p: Phase)
    ensures [p][..0] == [] && forall q: Phase :: [] + [q] == [q]
  {
  }
}
