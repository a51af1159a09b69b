/** The hook execution protocol: `prepare_hooks`, `run_hooks` and `hook_execution`.

    A hook's phases are client code; each is described by the exception it raises, if any.
    A hook object is materialized afresh for every execution and (as proved below) each of its
    phases runs at most once, so one outcome per phase covers every behaviour it can have.
    Hook phases raise only `Exception`; the wrapped function may raise anything. */
module Hooks {
  import opened Sequences
  import opened StableSorting

  /** `Invalid` stands for any `__hook_error_mode__` other than 'warn' and 'raise'. */
  datatype Mode = Warn | Raise | Invalid

  datatype Exn =
    | User(tag: int)
    | InvalidMode                                       // ValueError of _hook_error_mode
    | HookPhaseError(errors: seq<(nat, Exn)>)
    | CalledTwice                                       // RuntimeError of hooked_call

  datatype Hook = Hook(id: nat, priority: int, mode: Mode,
                       pre: Option<Exn>, post: Option<Exn>, onError: Option<Exn>, fin: Option<Exn>)

  /** An entry of `obj._hooks`: materializing it gives a hook object or raises. */
  datatype HookType = Good(hook: Hook) | Bad(exn: Exn)

  datatype Event = Pre(id: nat) | Fn | Post(id: nat) | OnError(id: nat, exn: Exn) | Fin(id: nat)

  datatype Phase = PostPhase | ErrorPhase(exn: Exn) | FinPhase

  /** What the wrapped function does: the four ways out of the `try` in `hooked_call`. */
  datatype FnOutcome = Returns(value: int) | Handled(exn: Exn) | Ordinary(exn: Exn) | Base(exn: Exn)

  /** `map_exception`: absent, or what it makes of the exception at hand. */
  datatype Mapping = NoMap | MapsTo(exn: Exn) | MapRaises(exn: Exn)

  datatype Outcome = Value(value: int) | Raised(exn: Exn)

  datatype Prepared = Ready(hooks: seq<Hook>) | Failed(exn: Exn)

  // ---------------------------------------------------------------- what the phases do

  function Priority(): Hook -> int {
    (h: Hook) => h.priority
  }

  function EventOf(id: nat, phase: Phase): Event {
    match phase
    case PostPhase => Post(id)
    case ErrorPhase(e) => OnError(id, e)
    case FinPhase => Fin(id)
  }

  function Failure(h: Hook, phase: Phase): Option<Exn> {
    match phase
    case PostPhase => h.post
    case ErrorPhase(_) => h.onError
    case FinPhase => h.fin
  }

  /** The hooks whose pre_hook succeeded: the ones `prepare_hooks` returns. */
  function Active(hs: seq<Hook>): seq<Hook> {
    Filter(hs, Succeeded())
  }

  function Succeeded(): Hook -> bool {
    (h: Hook) => h.pre.None?
  }

  /** A failing pre_hook of this hook ends `prepare_hooks` with an exception. */
  predicate Fatal(h: Hook) {
    h.pre.Some? && h.mode != Warn
  }

  /** The events of the pre phase when no hook of `hs` is fatal. */
  function PreEvents(hs: seq<Hook>): seq<Event> {
    if hs == [] then []
    else (if hs[0].pre.None? then [Pre(hs[0].id)] else [Pre(hs[0].id), Fin(hs[0].id)]) + PreEvents(hs[1..])
  }

  function Events(hs: seq<Hook>, phase: Phase): (r: seq<Event>)
    ensures |r| == |hs|
  {
    Map(hs, (h: Hook) => EventOf(h.id, phase))
  }

  /** The phase fails in this hook and asking for the hook's error mode raises. */
  predicate Aborts(h: Hook, phase: Phase) {
    Failure(h, phase).Some? && h.mode == Invalid
  }

  function AbortsIn(phase: Phase): Hook -> bool {
    (h: Hook) => Aborts(h, phase)
  }

  /** The first hook that satisfies `p`, or the length. */
  function FirstIndex(hs: seq<Hook>, p: Hook -> bool): (k: nat)
    ensures k <= |hs|
    ensures forall i :: 0 <= i < k ==> !p(hs[i])
    ensures k < |hs| ==> p(hs[k])
  {
    if hs == [] || p(hs[0]) then 0 else 1 + FirstIndex(hs[1..], p)
  }

  /** How many of `ordered` run before the phase is abandoned. */
  function Reached(ordered: seq<Hook>, phase: Phase): (k: nat)
    ensures k <= |ordered|
  {
    var k := FirstIndex(ordered, AbortsIn(phase));
    if k < |ordered| then k + 1 else k
  }

  /** The failures of raise-mode hooks, in the order of `ordered`. */
  function StrictErrors(ordered: seq<Hook>, phase: Phase): seq<(nat, Exn)> {
    if ordered == [] then []
    else
      var h := ordered[0];
      (if Failure(h, phase).Some? && h.mode == Raise then [(h.id, Failure(h, phase).value)] else [])
      + StrictErrors(ordered[1..], phase)
  }

  /** The exception `run_hooks` ends with over hooks already put in running order. */
  function PhaseResult(ordered: seq<Hook>, phase: Phase): Option<Exn> {
    if exists h :: h in ordered && Aborts(h, phase) then Some(InvalidMode)
    else if StrictErrors(ordered, phase) == [] then None
    else Some(HookPhaseError(StrictErrors(ordered, phase)))
  }

  /** The events of `run_hooks` over the active hooks. */
  function PhaseEvents(active: seq<Hook>, phase: Phase): seq<Event> {
    var ordered := Reverse(active);
    Events(ordered[..Reached(ordered, phase)], phase)
  }

  lemma {:induction false} EventsSnoc(hs: seq<Hook>, k: nat, phase: Phase)
    requires k < |hs|
    ensures Events(hs[..k + 1], phase) == Events(hs[..k], phase) + [EventOf(hs[k].id, phase)]
  {
  }

  lemma {:induction false} StrictConcat(hs: seq<Hook>, gs: seq<Hook>, phase: Phase)
    ensures StrictErrors(hs + gs, phase) == StrictErrors(hs, phase) + StrictErrors(gs, phase)
  {
    if hs == [] {
      assert hs + gs == gs;
    } else {
      assert (hs + gs)[0] == hs[0] && (hs + gs)[1..] == hs[1..] + gs;
      StrictConcat(hs[1..], gs, phase);
    }
  }

  lemma {:induction false} StrictSnoc(hs: seq<Hook>, i: nat, phase: Phase)
    requires i < |hs|
    ensures StrictErrors(hs[..i + 1], phase) == StrictErrors(hs[..i], phase)
      + (if Failure(hs[i], phase).Some? && hs[i].mode == Raise then [(hs[i].id, Failure(hs[i], phase).value)] else [])
  {
    assert hs[..i + 1] == hs[..i] + [hs[i]];
    StrictConcat(hs[..i], [hs[i]], phase);
    assert [hs[i]][1..] == [] && StrictErrors([], phase) == [];
  }

  lemma {:induction false} PreEventsConcat(hs: seq<Hook>, gs: seq<Hook>)
    ensures PreEvents(hs + gs) == PreEvents(hs) + PreEvents(gs)
  {
    if hs == [] {
      assert hs + gs == gs;
    } else {
      assert (hs + gs)[0] == hs[0] && (hs + gs)[1..] == hs[1..] + gs;
      PreEventsConcat(hs[1..], gs);
    }
  }

  /** The events of the `except` block for a failed pre_hook of `h`. */
  function FailedPreEvents(h: Hook, started: seq<Hook>): seq<Event> {
    [Fin(h.id)] + (if Fatal(h) && CleansUp(h) then Events(started, FinPhase) else [])
  }

  /** The events of one round of the pre_hook loop. */
  function StartEvents(h: Hook, started: seq<Hook>): seq<Event> {
    [Pre(h.id)] + (if h.pre.None? then [] else FailedPreEvents(h, started))
  }

  lemma {:induction false} Assoc<T>(a: seq<T>, b: seq<T>, c: seq<T>)
    ensures (a + b) + c == a + (b + c)
  {
  }

  lemma {:induction false} PreStep(hs: seq<Hook>, i: nat)
    requires i < |hs|
    ensures !Fatal(hs[i]) ==> PreEvents(hs[..i + 1]) == PreEvents(hs[..i]) + StartEvents(hs[i], Active(hs[..i]))
    ensures Active(hs[..i + 1]) == if hs[i].pre.None? then Active(hs[..i]) + [hs[i]] else Active(hs[..i])
  {
    var h := hs[i];
    assert hs[..i + 1] == hs[..i] + [h];
    PreEventsConcat(hs[..i], [h]);
    FilterSnoc(hs[..i], h, Succeeded());
    assert [h][1..] == [] && PreEvents([]) == [];
    assert PreEvents([h]) == if h.pre.None? then [Pre(h.id)] else [Pre(h.id), Fin(h.id)];
  }

  // ---------------------------------------------------------------- prepare_hooks

  function Materialized(types: seq<HookType>): Prepared {
    if types == [] then Ready([])
    else match types[0]
      case Bad(e) => Failed(e)
      case Good(h) =>
        match Materialized(types[1..])
        case Failed(e) => Failed(e)
        case Ready(hs) => Ready([h] + hs)
  }

  /** The end of `prepare_hooks` when `h`'s pre_hook has failed fatally. */
  function FatalExn(h: Hook): Exn
    requires Fatal(h)
  {
    if h.mode == Invalid then InvalidMode
    else if h.fin.Some? then h.fin.value
    else h.pre.value
  }

  /** Whether the hooks started before a fatal one are finalized on the way out. */
  predicate CleansUp(h: Hook) {
    h.mode == Raise && h.fin.None?
  }

  function PrepareEvents(sorted: seq<Hook>): seq<Event> {
    PrepareEventsUpTo(sorted, FirstIndex(sorted, Fatal))
  }

  /** The events of `prepare_hooks` when the hook at `k`, if any, is the first fatal one. */
  function PrepareEventsUpTo(sorted: seq<Hook>, k: nat): seq<Event>
    requires k <= |sorted|
  {
    PreEvents(sorted[..k]) + (if k < |sorted| then StartEvents(sorted[k], Active(sorted[..k])) else [])
  }

  function PrepareResult(sorted: seq<Hook>): Prepared {
    var k := FirstIndex(sorted, Fatal);
    if k == |sorted| then Ready(Active(sorted)) else Failed(FatalExn(sorted[k]))
  }

  lemma {:induction false} FatalAt(sorted: seq<Hook>, i: nat)
    requires i < |sorted| && Fatal(sorted[i]) && forall j :: 0 <= j < i ==> !Fatal(sorted[j])
    ensures PrepareResult(sorted) == Failed(FatalExn(sorted[i]))
    ensures PrepareEvents(sorted) == PreEvents(sorted[..i])
      + StartEvents(sorted[i], Active(sorted[..i]))
  {
    assert FirstIndex(sorted, Fatal) == i;
  }

  lemma {:induction false} NoneFatal(sorted: seq<Hook>)
    requires forall j :: 0 <= j < |sorted| ==> !Fatal(sorted[j])
    ensures PrepareResult(sorted) == Ready(Active(sorted)) && PrepareEvents(sorted) == PreEvents(sorted)
  {
    assert FirstIndex(sorted, Fatal) == |sorted|;
    assert sorted[..|sorted|] == sorted;
  }

  lemma {:induction false} AbortedAt(ordered: seq<Hook>, i: nat, phase: Phase)
    requires i < |ordered| && Aborts(ordered[i], phase) && forall j :: 0 <= j < i ==> !Aborts(ordered[j], phase)
    ensures Reached(ordered, phase) == i + 1 && PhaseResult(ordered, phase) == Some(InvalidMode)
  {
    assert FirstIndex(ordered, AbortsIn(phase)) == i;
    assert ordered[i] in ordered;
  }

  lemma {:induction false} NotAborted(ordered: seq<Hook>, phase: Phase)
    requires forall j :: 0 <= j < |ordered| ==> !Aborts(ordered[j], phase)
    ensures Reached(ordered, phase) == |ordered| && PhaseResult(ordered, phase) ==
      if StrictErrors(ordered, phase) == [] then None else Some(HookPhaseError(StrictErrors(ordered, phase)))
  {
    assert FirstIndex(ordered, AbortsIn(phase)) == |ordered|;
  }

  /** Materializing keeps the order of the list and fails with the first entry that cannot be made. */
  lemma {:induction false} MaterializedInOrder(types: seq<HookType>)
    ensures Materialized(types).Ready? <==> forall i :: 0 <= i < |types| ==> types[i].Good?
    ensures Materialized(types).Ready? ==>
      |Materialized(types).hooks| == |types|
      && forall i :: 0 <= i < |types| ==> Materialized(types).hooks[i] == types[i].hook
    ensures forall k :: 0 <= k < |types| && types[k].Bad? && (forall i :: 0 <= i < k ==> types[i].Good?) ==>
      Materialized(types) == Failed(types[k].exn)
  {
    if types != [] {
      MaterializedInOrder(types[1..]);
      forall k | 0 <= k < |types| && types[k].Bad? && (forall i :: 0 <= i < k ==> types[i].Good?)
        ensures Materialized(types) == Failed(types[k].exn)
      {
        if k > 0 {
          assert types[1..][k - 1] == types[k];
          assert forall i :: 0 <= i < k - 1 ==> types[1..][i] == types[i + 1];
        }
      }
      assert forall i :: 0 <= i < |types[1..]| ==> types[1..][i] == types[i + 1];
    }
  }

  function HasPriority(p: int): Hook -> bool {
    (h: Hook) => h.priority == p
  }

  lemma {:induction false} ClassIsFilter(hs: seq<Hook>, p: int)
    ensures Class(hs, Priority(), p) == Filter(hs, HasPriority(p))
  {
    if hs != [] {
      ClassIsFilter(hs[1..], p);
    }
  }

  /** Hooks run by ascending priority, and hooks of one priority in the order they were registered. */
  lemma {:induction false} PriorityOrder(hs: seq<Hook>)
    ensures var sorted := Sort(hs, Priority());
      (forall i, j :: 0 <= i < j < |sorted| ==> sorted[i].priority <= sorted[j].priority)
      && forall p :: Filter(sorted, HasPriority(p)) == Filter(hs, HasPriority(p))
  {
    var sorted := Sort(hs, Priority());
    SortIsStable(hs, Priority());
    forall p ensures Filter(sorted, HasPriority(p)) == Filter(hs, HasPriority(p)) {
      ClassIsFilter(sorted, p);
      ClassIsFilter(hs, p);
      assert Class(sorted, Priority(), p) == Class(hs, Priority(), p);
    }
    forall i, j | 0 <= i < j < |sorted| ensures sorted[i].priority <= sorted[j].priority {
      assert Priority()(sorted[i]) <= Priority()(sorted[j]);
    }
  }

  /** What leaves `prepare_hooks` when `k` is the first hook whose pre_hook fails outside warn mode:
      the ValueError of an invalid mode, else the exception of its own finalize if that fails,
      else that of its pre_hook. */
  lemma {:induction false} PreparationFails(sorted: seq<Hook>, k: nat)
    requires k < |sorted| && sorted[k].pre.Some? && sorted[k].mode != Warn
    requires forall i :: 0 <= i < k ==> sorted[i].pre.None? || sorted[i].mode == Warn
    ensures sorted[k].mode == Invalid ==> PrepareResult(sorted) == Failed(InvalidMode)
    ensures sorted[k].mode == Raise && sorted[k].fin.Some? ==> PrepareResult(sorted) == Failed(sorted[k].fin.value)
    ensures sorted[k].mode == Raise && sorted[k].fin.None? ==> PrepareResult(sorted) == Failed(sorted[k].pre.value)
  {
    FatalAt(sorted, k);
  }

  function Unfailed(): Hook -> bool {
    (h: Hook) => h.pre == None
  }

  /** The hooks left active are those whose pre_hook succeeded, in running order, if every other is
      in warn mode. */
  lemma {:induction false} PreparationSucceeds(sorted: seq<Hook>)
    requires forall i :: 0 <= i < |sorted| ==> sorted[i].pre.None? || sorted[i].mode == Warn
    ensures PrepareResult(sorted) == Ready(Filter(sorted, Unfailed()))
  {
    NoneFatal(sorted);
    FilterAgree(sorted, Succeeded(), Unfailed());
  }

  function FinOf(): Hook -> Event {
    (h: Hook) => Fin(h.id)
  }

  /** The end of a failing preparation: the failing hook is finalized, and then, if it is in raise
      mode and its own finalize does not fail, the hooks started before it, in starting order. */
  lemma {:induction false} CleanupInOrder(sorted: seq<Hook>, k: nat)
    requires k < |sorted| && sorted[k].pre.Some? && sorted[k].mode != Warn
    requires forall i :: 0 <= i < k ==> sorted[i].pre.None? || sorted[i].mode == Warn
    ensures var h := sorted[k];
      PrepareEvents(sorted) == PreEvents(sorted[..k]) + ([Pre(h.id), Fin(h.id)] +
        if h.mode == Raise && h.fin.None? then Map(Filter(sorted[..k], Unfailed()), FinOf()) else [])
  {
    FatalAt(sorted, k);
    FailedStart(sorted[k], Active(sorted[..k]));
    hide StartEvents, PreEvents, PrepareEvents;
    FilterAgree(sorted[..k], Succeeded(), Unfailed());
  }

  lemma {:induction false} FailedStart(h: Hook, started: seq<Hook>)
    requires Fatal(h)
    ensures StartEvents(h, started) ==
      [Pre(h.id), Fin(h.id)] + if h.mode == Raise && h.fin.None? then Map(started, FinOf()) else []
  {
    assert Events(started, FinPhase) == Map(started, FinOf());
    assert [Pre(h.id)] + ([Fin(h.id)] + Events(started, FinPhase)) == [Pre(h.id), Fin(h.id)] + Events(started, FinPhase);
  }

  function PreOf(): Hook -> Event {
    (h: Hook) => Pre(h.id)
  }

  function IsPre(): Event -> bool {
    (e: Event) => e.Pre?
  }

  /** The pre hooks are called in running order. */
  lemma {:induction false} PresInOrder(hs: seq<Hook>)
    ensures Filter(PreEvents(hs), IsPre()) == Map(hs, PreOf())
  {
    if hs != [] {
      PresInOrder(hs[1..]);
      var own := if hs[0].pre.None? then [Pre(hs[0].id)] else [Pre(hs[0].id), Fin(hs[0].id)];
      FilterConcat(own, PreEvents(hs[1..]), IsPre());
      assert own[1..] == [] || own[1..] == [Fin(hs[0].id)];
      assert Filter(own[1..], IsPre()) == [] by {
        FilterNone(own[1..], IsPre());
      }
      assert Map(hs, PreOf()) == [Pre(hs[0].id)] + Map(hs[1..], PreOf());
    }
  }

  /** One use of `with hook_execution(...) as hooked_call`. */
  class Execution {
    var hookObjs: seq<Hook>
    var ran: bool
    var trace: seq<Event>

    constructor ()
      ensures hookObjs == [] && !ran && trace == []
    {
      hookObjs, ran, trace := [], false, [];
    }

    /** The materializing loop at the top of `prepare_hooks`. */
    method Materialize(types: seq<HookType>) returns (r: Prepared)
      ensures r == Materialized(types)
    {
      var materialized: seq<Hook> := [];
      var n := 0;
      while n < |types|
        invariant n <= |types|
        invariant Materialized(types) == match Materialized(types[n..])
          case Failed(e) => Failed(e)
          case Ready(hs) => Ready(materialized + hs)
      {
        match types[n] {
          case Bad(e) =>
            return Failed(e);
          case Good(h) =>
            assert types[n..][1..] == types[n + 1..];
            materialized := materialized + [h];
        }
        n := n + 1;
      }
      return Ready(materialized);
    }

    /** The cleanup loop of `prepare_hooks`: finalize in starting order, ignore failures. */
    method FinalizeStarted(started: seq<Hook>)
      modifies this`trace
      ensures trace == old(trace) + Events(started, FinPhase)
    {
      var j := 0;
      while j < |started|
        invariant j <= |started| && trace == old(trace) + Events(started[..j], FinPhase)
      {
        EventsSnoc(started, j, FinPhase);
        trace := trace + [Fin(started[j].id)];
        j := j + 1;
      }
      assert started[..j] == started;
    }

    /** The `except` block of the pre_hook loop; an exception of its own ends `prepare_hooks`. */
    method PreHookFailed(h: Hook, started: seq<Hook>) returns (r: Option<Exn>)
      requires h.pre.Some?
      modifies this`trace
      ensures r == if Fatal(h) then Some(FatalExn(h)) else None
      ensures trace == old(trace) + FailedPreEvents(h, started)
    {
      trace := trace + [Fin(h.id)];
      if h.fin.Some? {
        if h.mode == Invalid {
          return Some(InvalidMode);
        }
        if h.mode == Raise {
          return Some(h.fin.value);
        }
      }
      if h.mode == Invalid {
        return Some(InvalidMode);
      }
      if h.mode == Raise {
        FinalizeStarted(started);
        return Some(h.pre.value);
      }
      return None;
    }

    /** One round of the pre_hook loop. */
    method StartHook(h: Hook, started: seq<Hook>) returns (failed: Option<Exn>, started': seq<Hook>)
      modifies this`trace
      ensures failed == if Fatal(h) then Some(FatalExn(h)) else None
      ensures started' == if h.pre.None? then started + [h] else started
      ensures trace == old(trace) + StartEvents(h, started)
    {
      trace := trace + [Pre(h.id)];
      if h.pre.Some? {
        failed := PreHookFailed(h, started);
        started' := started;
      } else {
        failed, started' := None, started + [h];
      }
    }

    /** The pre_hook loop of `prepare_hooks`. */
    method RunPreHooks(sorted: seq<Hook>) returns (r: Prepared)
      modifies this`trace
      ensures r == PrepareResult(sorted) && trace == old(trace) + PrepareEvents(sorted)
    {
      var started: seq<Hook> := [];
      var i := 0;
      while i < |sorted|
        invariant i <= |sorted| && forall j :: 0 <= j < i ==> !Fatal(sorted[j])
        invariant started == Active(sorted[..i])
        invariant trace == old(trace) + PreEvents(sorted[..i])
      {
        PreStep(sorted, i);
        ghost var before := started;
        var failed;
        failed, started := StartHook(sorted[i], started);
        Assoc(old(trace), PreEvents(sorted[..i]), StartEvents(sorted[i], before));
        if failed.Some? {
          FatalAt(sorted, i);
          return Failed(failed.value);
        }
        i := i + 1;
      }
      assert sorted[..i] == sorted;
      NoneFatal(sorted);
      return Ready(started);
    }

    method RunHooks(phase: Phase) returns (r: Option<Exn>)
      modifies this`trace
      ensures r == PhaseResult(Reverse(hookObjs), phase)
      ensures trace == old(trace) + PhaseEvents(hookObjs, phase)
    {
      var strictErrors: seq<(nat, Exn)> := [];
      var ordered := Reverse(hookObjs);
      var i := 0;
      while i < |ordered|
        invariant i <= |ordered| && forall j :: 0 <= j < i ==> !Aborts(ordered[j], phase)
        invariant strictErrors == StrictErrors(ordered[..i], phase)
        invariant trace == old(trace) + Events(ordered[..i], phase)
      {
        var h := ordered[i];
        EventsSnoc(ordered, i, phase);
        trace := trace + [EventOf(h.id, phase)];
        if Aborts(h, phase) {
          AbortedAt(ordered, i, phase);
          return Some(InvalidMode);
        }
        StrictSnoc(ordered, i, phase);
        if Failure(h, phase).Some? && h.mode == Raise {
          strictErrors := strictErrors + [(h.id, Failure(h, phase).value)];
        }
        i := i + 1;
      }
      assert ordered[..i] == ordered;
      NotAborted(ordered, phase);
      return if strictErrors == [] then None else Some(HookPhaseError(strictErrors));
    }

    method HookedCall(fn: FnOutcome, mapping: Mapping) returns (r: Outcome)
      modifies this`ran, this`trace
      ensures ran
      ensures old(ran) ==> r == Raised(CalledTwice) && trace == old(trace)
      ensures !old(ran) ==>
        (r == CallResult(hookObjs, fn, mapping) && trace == old(trace) + CallEvents(hookObjs, fn, mapping))
      ensures !old(ran) && fn.Ordinary? && mapping.MapsTo? ==>
        r == Raised(mapping.exn) && OnErrorsCarry(trace[|old(trace)|..], mapping.exn)
      ensures !old(ran) && fn.Ordinary? && mapping.MapRaises? ==>
        r == Raised(mapping.exn) && NoOnError(trace[|old(trace)|..])
      ensures !old(ran) && (fn.Handled? || fn.Base? || (fn.Ordinary? && mapping.NoMap?)) ==>
        r == Raised(fn.exn) && OnErrorsCarry(trace[|old(trace)|..], fn.exn)
      ensures !old(ran) && fn.Returns? ==> NoOnError(trace[|old(trace)|..])
    {
      ErrorsCarried(hookObjs, fn, mapping);
      if ran {
        return Raised(CalledTwice);
      }
      ran := true;
      trace := trace + [Fn];
      if fn.Returns? {
        var failed := RunHooks(PostPhase);
        Assoc(old(trace), [Fn], PhaseEvents(hookObjs, PostPhase));
        return if failed.Some? then Raised(failed.value) else Value(fn.value);
      }
      if fn.Ordinary? && mapping.MapRaises? {
        return Raised(mapping.exn);
      }
      // `except HandledException`, `except Exception` and `except BaseException`: only the
      // second maps the exception; none lets a failure of the on_error phase through.
      var err := if fn.Ordinary? && mapping.MapsTo? then mapping.exn else fn.exn;
      var _ := RunHooks(ErrorPhase(err));
      Assoc(old(trace), [Fn], PhaseEvents(hookObjs, ErrorPhase(err)));
      return Raised(err);
    }

    /** The body of a `with` block that calls `hooked_call` once for each entry of `calls`,
        surviving the exceptions of all of them. */
    method Body(calls: seq<(FnOutcome, Mapping)>) returns (results: seq<Outcome>)
      requires !ran
      modifies this`ran, this`trace
      ensures results == CallResults(hookObjs, calls)
      ensures trace == old(trace) + BodyEvents(hookObjs, calls)
    {
      results := [];
      var i := 0;
      while i < |calls|
        invariant i <= |calls| && ran == (i > 0)
        invariant results == CallResults(hookObjs, calls)[..i]
        invariant trace == old(trace) + (if i == 0 then [] else BodyEvents(hookObjs, calls))
      {
        var res := HookedCall(calls[i].0, calls[i].1);
        results := results + [res];
        i := i + 1;
      }
    }

    /** The `with` block from the pre_hook loop on, over hooks in priority order. */
    method RunBlock(sorted: seq<Hook>, calls: seq<(FnOutcome, Mapping)>) returns (r: BlockResult)
      requires !ran
      modifies this
      ensures r == BlockResultOf(sorted, calls) && trace == old(trace) + BlockEvents(sorted, calls)
    {
      var prepared := RunPreHooks(sorted);
      if prepared.Failed? {
        return NotEntered(prepared.exn);
      }
      hookObjs := prepared.hooks;
      var results := Body(calls);
      var _ := RunHooks(FinPhase);
      Assoc(old(trace) + PrepareEvents(sorted), BodyEvents(hookObjs, calls), PhaseEvents(hookObjs, FinPhase));
      Assoc(old(trace), PrepareEvents(sorted), BodyEvents(hookObjs, calls) + PhaseEvents(hookObjs, FinPhase));
      return Ran(results);
    }

    /** The whole `with` block. */
    method WithBlock(types: seq<HookType>, calls: seq<(FnOutcome, Mapping)>) returns (r: BlockResult)
      requires !ran
      modifies this
      ensures match Materialized(types)
        case Failed(e) => r == NotEntered(e) && trace == old(trace)
        case Ready(hs) =>
          r == BlockResultOf(Sort(hs, Priority()), calls)
          && trace == old(trace) + BlockEvents(Sort(hs, Priority()), calls)
    {
      var materialized := Materialize(types);
      if materialized.Failed? {
        return NotEntered(materialized.exn);
      }
      r := RunBlock(Sort(materialized.hooks, Priority()), calls);
    }
  }

  datatype BlockResult = NotEntered(exn: Exn) | Ran(results: seq<Outcome>)

  // ---------------------------------------------------------------- hooked_call

  /** The exception handed to `on_error` and re-raised, when there is one. */
  function Propagated(fn: FnOutcome, mapping: Mapping): Exn
    requires !fn.Returns?
  {
    if fn.Ordinary? && !mapping.NoMap? then mapping.exn else fn.exn
  }

  function CallEvents(active: seq<Hook>, fn: FnOutcome, mapping: Mapping): seq<Event> {
    [Fn] +
    (if fn.Returns? then PhaseEvents(active, PostPhase)
     else if fn.Ordinary? && mapping.MapRaises? then []
     else PhaseEvents(active, ErrorPhase(Propagated(fn, mapping))))
  }

  /** Every on_error in these events was handed this exception. */
  ghost predicate OnErrorsCarry(events: seq<Event>, e: Exn) {
    forall ev :: ev in events && ev.OnError? ==> ev.exn == e
  }

  ghost predicate NoOnError(events: seq<Event>) {
    forall ev :: ev in events ==> !ev.OnError?
  }

  lemma {:induction false} ErrorsCarried(active: seq<Hook>, fn: FnOutcome, mapping: Mapping)
    ensures fn.Ordinary? && mapping.MapsTo? ==> OnErrorsCarry(CallEvents(active, fn, mapping), mapping.exn)
    ensures fn.Ordinary? && mapping.MapRaises? ==> NoOnError(CallEvents(active, fn, mapping))
    ensures fn.Handled? || fn.Base? || (fn.Ordinary? && mapping.NoMap?) ==>
      OnErrorsCarry(CallEvents(active, fn, mapping), fn.exn)
    ensures fn.Returns? ==> NoOnError(CallEvents(active, fn, mapping))
  {
  }

  function CallResult(active: seq<Hook>, fn: FnOutcome, mapping: Mapping): Outcome {
    if fn.Returns? then
      match PhaseResult(Reverse(active), PostPhase)
      case None => Value(fn.value)
      case Some(e) => Raised(e)
    else Raised(Propagated(fn, mapping))
  }

  /** Only the first call of a block runs anything. */
  function BodyEvents(active: seq<Hook>, calls: seq<(FnOutcome, Mapping)>): seq<Event> {
    if calls == [] then [] else CallEvents(active, calls[0].0, calls[0].1)
  }

  function CallResults(active: seq<Hook>, calls: seq<(FnOutcome, Mapping)>): seq<Outcome> {
    seq(|calls|, i requires 0 <= i < |calls| =>
      if i == 0 then CallResult(active, calls[0].0, calls[0].1) else Raised(CalledTwice))
  }

  function BlockEvents(sorted: seq<Hook>, calls: seq<(FnOutcome, Mapping)>): seq<Event> {
    PrepareEvents(sorted) +
    match PrepareResult(sorted)
    case Failed(_) => []
    case Ready(active) => BodyEvents(active, calls) + PhaseEvents(active, FinPhase)
  }

  function BlockResultOf(sorted: seq<Hook>, calls: seq<(FnOutcome, Mapping)>): BlockResult {
    match PrepareResult(sorted)
    case Failed(e) => NotEntered(e)
    case Ready(active) => Ran(CallResults(active, calls))
  }

  // ---------------------------------------------------------------- counting events

  ghost predicate DistinctIds(hs: seq<Hook>) {
    forall i, j :: 0 <= i < j < |hs| ==> hs[i].id != hs[j].id
  }

  /** How many hooks of `hs` have this identity. */
  ghost function CountId(hs: seq<Hook>, id: nat): nat {
    if hs == [] then 0 else (if hs[0].id == id then 1 else 0) + CountId(hs[1..], id)
  }

  lemma {:induction false} CountIdConcat(hs: seq<Hook>, gs: seq<Hook>, id: nat)
    ensures CountId(hs + gs, id) == CountId(hs, id) + CountId(gs, id)
  {
    if hs == [] {
      assert hs + gs == gs;
    } else {
      assert (hs + gs)[0] == hs[0] && (hs + gs)[1..] == hs[1..] + gs;
      CountIdConcat(hs[1..], gs, id);
    }
  }

  lemma {:induction false} CountIdReverse(hs: seq<Hook>, id: nat)
    ensures CountId(Reverse(hs), id) == CountId(hs, id)
  {
    if hs != [] {
      assert Reverse(hs) == Reverse(hs[1..]) + [hs[0]];
      CountIdConcat(Reverse(hs[1..]), [hs[0]], id);
      CountIdReverse(hs[1..], id);
    }
  }

  lemma {:induction false} CountIdAbsent(hs: seq<Hook>, id: nat)
    requires forall h :: h in hs ==> h.id != id
    ensures CountId(hs, id) == 0
  {
    if hs != [] {
      CountIdAbsent(hs[1..], id);
    }
  }

  lemma {:induction false} CountIdOnce(hs: seq<Hook>, i: nat)
    requires DistinctIds(hs) && i < |hs|
    ensures CountId(hs, hs[i].id) == 1
  {
    if i == 0 {
      CountIdAbsent(hs[1..], hs[0].id);
    } else {
      CountIdOnce(hs[1..], i - 1);
    }
  }

  /** How often `e` happens in a trace. */
  ghost function Times(trace: seq<Event>, e: Event): nat {
    multiset(trace)[e]
  }

  lemma {:induction false} TimesConcat(a: seq<Event>, b: seq<Event>, e: Event)
    ensures Times(a + b, e) == Times(a, e) + Times(b, e)
  {
  }

  lemma {:induction false} EventsCount(hs: seq<Hook>, phase: Phase, e: Event)
    ensures e.Fn? ==> Times(Events(hs, phase), e) == 0
    ensures !e.Fn? ==> Times(Events(hs, phase), e) == if e == EventOf(e.id, phase) then CountId(hs, e.id) else 0
  {
    if hs != [] {
      EventsCount(hs[1..], phase, e);
      assert Events(hs, phase) == [EventOf(hs[0].id, phase)] + Events(hs[1..], phase);
      TimesConcat([EventOf(hs[0].id, phase)], Events(hs[1..], phase), e);
    }
  }

  lemma {:induction false} PreOneCount(h: Hook, e: Event)
    ensures var own := if h.pre.None? then [Pre(h.id)] else [Pre(h.id), Fin(h.id)];
      Times(own, e) == if e == Pre(h.id) then 1 else if e == Fin(h.id) && h.pre.Some? then 1 else 0
  {
    assert [Pre(h.id), Fin(h.id)] == [Pre(h.id)] + [Fin(h.id)];
  }

  lemma {:induction false} PreEventsCount(hs: seq<Hook>, e: Event)
    ensures !e.Pre? && !e.Fin? ==> Times(PreEvents(hs), e) == 0
    ensures e.Pre? ==> Times(PreEvents(hs), e) == CountId(hs, e.id)
    ensures e.Fin? ==> Times(PreEvents(hs), e) + CountId(Active(hs), e.id) == CountId(hs, e.id)
  {
    if hs == [] {
      assert Times([], e) == 0;
    } else {
      hide Times;
      PreEventsCount(hs[1..], e);
      PreOneCount(hs[0], e);
      TimesConcat(if hs[0].pre.None? then [Pre(hs[0].id)] else [Pre(hs[0].id), Fin(hs[0].id)],
                  PreEvents(hs[1..]), e);
      if e.Fin? && hs[0].pre.None? {
        assert Active(hs)[1..] == Active(hs[1..]);
      }
    }
  }

  lemma {:induction false} ActiveDistinct(hs: seq<Hook>)
    requires DistinctIds(hs)
    ensures DistinctIds(Active(hs))
  {
    if hs != [] {
      ActiveDistinct(hs[1..]);
      forall h | h in Active(hs[1..]) ensures h.id != hs[0].id {
        assert h in hs[1..];
      }
    }
  }

  /** A phase over the active hooks reaches each of them exactly once if and only if no hook
      but the first one started fails it under an invalid error mode. */
  lemma {:induction false} PhaseReachesAll(active: seq<Hook>, phase: Phase)
    requires DistinctIds(active)
    ensures (forall h :: h in active ==> Times(PhaseEvents(active, phase), EventOf(h.id, phase)) == 1)
      <==> (forall i :: 0 < i < |active| ==> !Aborts(active[i], phase))
    ensures (forall i :: 0 < i < |active| ==> !Aborts(active[i], phase)) ==>
      PhaseEvents(active, phase) == Events(Reverse(active), phase)
    ensures forall id :: Times(PhaseEvents(active, phase), EventOf(id, phase)) <= CountId(active, id)
  {
    var ordered, n := Reverse(active), |active|;
    var k := Reached(ordered, phase);
    PhaseTimes(active, phase);
    if k == n {
      assert ordered[..k] == ordered;
      forall h | h in active ensures CountId(ordered[..k], h.id) == 1 {
        var i :| 0 <= i < n && active[i] == h;
        CountIdOnce(active, i);
        CountIdReverse(active, h.id);
      }
      forall i | 0 < i < n ensures !Aborts(active[i], phase) {
        assert active[i] == ordered[n - 1 - i];
      }
    } else {
      var first := FirstIndex(ordered, AbortsIn(phase));
      assert first < n - 1 && Aborts(ordered[first], phase);
      assert ordered[first] == active[n - 1 - first];
      forall h | h in ordered[..k] ensures h.id != active[0].id {
        var j :| 0 <= j < k && ordered[j] == h;
        assert active[n - 1 - j] == h;
      }
      CountIdAbsent(ordered[..k], active[0].id);
      assert active[0] in active;
    }
  }

  lemma {:induction false} PhaseTimes(active: seq<Hook>, phase: Phase)
    ensures var ordered := Reverse(active);
      forall id :: Times(PhaseEvents(active, phase), EventOf(id, phase))
        == CountId(ordered[..Reached(ordered, phase)], id) <= CountId(active, id)
  {
    var ordered := Reverse(active);
    var k := Reached(ordered, phase);
    forall id: nat ensures Times(PhaseEvents(active, phase), EventOf(id, phase)) == CountId(ordered[..k], id) <= CountId(active, id)
    {
      EventsCount(ordered[..k], phase, EventOf(id, phase));
      CountIdReverse(active, id);
      assert ordered == ordered[..k] + ordered[k..];
      CountIdConcat(ordered[..k], ordered[k..], id);
    }
  }

  // ---------------------------------------------------------------- main results

  /** The index up to which pre hooks are started, inclusive. */
  ghost predicate Started(sorted: seq<Hook>, i: nat) {
    i < |sorted| && i <= FirstIndex(sorted, Fatal)
  }

  /** Some started hook is left without its finalize: either `prepare_hooks` gives up before
      finalizing the hooks already active, or the final phase is abandoned half way. */
  ghost predicate Leaks(sorted: seq<Hook>) {
    var k := FirstIndex(sorted, Fatal);
    if k < |sorted| then !CleansUp(sorted[k]) && Active(sorted[..k]) != []
    else exists i :: 0 < i < |Active(sorted)| && Aborts(Active(sorted)[i], FinPhase)
  }

  lemma {:induction false} PrepareTimes(sorted: seq<Hook>, k: nat, e: Event)
    requires k <= |sorted| && (k < |sorted| ==> Fatal(sorted[k]))
    ensures Times(PrepareEventsUpTo(sorted, k), e) == Times(PreEvents(sorted[..k]), e)
      + (if k < |sorted| && (e == Pre(sorted[k].id) || e == Fin(sorted[k].id)) then 1 else 0)
      + (if k < |sorted| && CleansUp(sorted[k]) then Times(Events(Active(sorted[..k]), FinPhase), e) else 0)
  {
    if k < |sorted| {
      TimesConcat(PreEvents(sorted[..k]), StartEvents(sorted[k], Active(sorted[..k])), e);
      TimesConcat([Pre(sorted[k].id)], FailedPreEvents(sorted[k], Active(sorted[..k])), e);
    }
  }

  lemma {:induction false} SameIdSameIndex(sorted: seq<Hook>, i: nat, j: nat)
    requires DistinctIds(sorted) && i < |sorted| && j < |sorted|
    ensures sorted[i].id == sorted[j].id <==> i == j
  {
  }

  lemma {:induction false} StartCountsUpTo(sorted: seq<Hook>, k: nat, i: nat)
    requires DistinctIds(sorted) && i < |sorted| && k <= |sorted| && (k < |sorted| ==> Fatal(sorted[k]))
    ensures Times(PrepareEventsUpTo(sorted, k), Pre(sorted[i].id)) == if i <= k then 1 else 0
  {
    var e := Pre(sorted[i].id);
    assert Times(PreEvents(sorted[..k]), e) == if i < k then 1 else 0 by {
      ActiveCount(sorted, k, i);
      PreEventsCount(sorted[..k], e);
    }
    assert Times(Events(Active(sorted[..k]), FinPhase), e) == 0 by {
      EventsCount(Active(sorted[..k]), FinPhase, e);
    }
    PrepareTimes(sorted, k, e);
    if k < |sorted| {
      SameIdSameIndex(sorted, i, k);
    }
  }

  lemma {:induction false} FinCountsUpTo(sorted: seq<Hook>, k: nat, i: nat)
    requires DistinctIds(sorted) && i < |sorted| && k <= |sorted| && (k < |sorted| ==> Fatal(sorted[k]))
    ensures Times(PrepareEventsUpTo(sorted, k), Fin(sorted[i].id)) ==
      if i > k then 0
      else if i == k || sorted[i].pre.Some? || (k < |sorted| && CleansUp(sorted[k])) then 1
      else 0
  {
    var e := Fin(sorted[i].id);
    ActiveCount(sorted, k, i);
    PrepareTimes(sorted, k, e);
    PreEventsCount(sorted[..k], e);
    EventsCount(Active(sorted[..k]), FinPhase, e);
    if k < |sorted| {
      SameIdSameIndex(sorted, i, k);
    }
  }

  lemma {:induction false} PrepareNeverCalls(sorted: seq<Hook>)
    ensures Times(PrepareEvents(sorted), Fn) == 0
  {
    var k := FirstIndex(sorted, Fatal);
    PrepareTimes(sorted, k, Fn);
    PreEventsCount(sorted[..k], Fn);
    EventsCount(Active(sorted[..k]), FinPhase, Fn);
  }

  lemma {:induction false} ActiveCount(sorted: seq<Hook>, k: nat, i: nat)
    requires DistinctIds(sorted) && k <= |sorted| && i < |sorted|
    ensures CountId(sorted[..k], sorted[i].id) == (if i < k then 1 else 0)
    ensures CountId(Active(sorted[..k]), sorted[i].id) == (if i < k && sorted[i].pre.None? then 1 else 0)
  {
    var id, active := sorted[i].id, Active(sorted[..k]);
    ActiveDistinct(sorted[..k]);
    if i < k {
      CountIdOnce(sorted[..k], i);
    } else {
      CountIdAbsent(sorted[..k], id);
    }
    if i < k && sorted[i].pre.None? {
      assert sorted[i] in sorted[..k];
      var j :| 0 <= j < |active| && active[j] == sorted[i];
      CountIdOnce(active, j);
    } else {
      forall h | h in active ensures h.id != id {
        var j :| 0 <= j < k && sorted[j] == h;
      }
      CountIdAbsent(active, id);
    }
  }

  lemma {:induction false} BodyCounts(active: seq<Hook>, calls: seq<(FnOutcome, Mapping)>, e: Event)
    ensures e.Fn? ==> Times(BodyEvents(active, calls), e) == (if calls == [] then 0 else 1)
    ensures e.Pre? || e.Fin? ==> Times(BodyEvents(active, calls), e) == 0
  {
    if calls != [] {
      var fn, mapping := calls[0].0, calls[0].1;
      var ordered := Reverse(active);
      EventsCount(ordered[..Reached(ordered, PostPhase)], PostPhase, e);
      if !fn.Returns? {
        var phase := ErrorPhase(Propagated(fn, mapping));
        EventsCount(ordered[..Reached(ordered, phase)], phase, e);
      }
    }
  }

  lemma {:induction false} BlockTimes(sorted: seq<Hook>, calls: seq<(FnOutcome, Mapping)>, id: nat)
    ensures Times(BlockEvents(sorted, calls), Fin(id)) == Times(PrepareEvents(sorted), Fin(id))
      + (if PrepareResult(sorted).Ready? then Times(PhaseEvents(Active(sorted), FinPhase), Fin(id)) else 0)
  {
    BodyCounts(Active(sorted), calls, Fin(id));
  }

  /** Every started hook is finalized exactly once, on every way out of a block and however
      often the body calls `hooked_call`, if and only if the block does not leak. */
  lemma {:induction false} FinalizedOnce(sorted: seq<Hook>, calls: seq<(FnOutcome, Mapping)>)
    requires DistinctIds(sorted)
    ensures (forall i: nat :: Started(sorted, i) ==> Times(BlockEvents(sorted, calls), Fin(sorted[i].id)) == 1)
      <==> !Leaks(sorted)
  {
    if FirstIndex(sorted, Fatal) < |sorted| {
      FinalizedOnceFailed(sorted, calls);
    } else {
      FinalizedOnceReady(sorted, calls);
    }
  }

  lemma {:induction false} FinalizedOnceFailed(sorted: seq<Hook>, calls: seq<(FnOutcome, Mapping)>)
    requires DistinctIds(sorted) && FirstIndex(sorted, Fatal) < |sorted|
    ensures (forall i: nat :: Started(sorted, i) ==> Times(BlockEvents(sorted, calls), Fin(sorted[i].id)) == 1)
      <==> !Leaks(sorted)
  {
    var k := FirstIndex(sorted, Fatal);
    forall i: nat | Started(sorted, i) ensures Times(BlockEvents(sorted, calls), Fin(sorted[i].id)) ==
      if i == k || sorted[i].pre.Some? || CleansUp(sorted[k]) then 1 else 0
    {
      BlockTimes(sorted, calls, sorted[i].id);
      FinCountsUpTo(sorted, FirstIndex(sorted, Fatal), i);
    }
    SomeActive(sorted, k);
  }

  lemma {:induction false} SomeActive(sorted: seq<Hook>, k: nat)
    requires k <= |sorted|
    ensures Active(sorted[..k]) != [] <==> exists i: nat :: i < k && sorted[i].pre.None?
  {
    if Active(sorted[..k]) != [] {
      var h := Active(sorted[..k])[0];
      assert h in Active(sorted[..k]);
      var i: nat :| i < k && sorted[i] == h;
    }
    forall i: nat | i < k && sorted[i].pre.None? ensures sorted[i] in Active(sorted[..k]) {
      assert sorted[i] in sorted[..k];
    }
  }

  lemma {:induction false} FinalizedOnceReady(sorted: seq<Hook>, calls: seq<(FnOutcome, Mapping)>)
    requires DistinctIds(sorted) && FirstIndex(sorted, Fatal) == |sorted|
    ensures (forall i: nat :: Started(sorted, i) ==> Times(BlockEvents(sorted, calls), Fin(sorted[i].id)) == 1)
      <==> !Leaks(sorted)
  {
    FinalPhaseSkips(sorted);
    FinalPhaseReaches(sorted);
    var last := PhaseEvents(Active(sorted), FinPhase);
    forall i: nat | i < |sorted| ensures Started(sorted, i) && Times(BlockEvents(sorted, calls), Fin(sorted[i].id)) ==
      if sorted[i].pre.Some? then 1 else Times(last, Fin(sorted[i].id))
    {
      BlockTimes(sorted, calls, sorted[i].id);
      FinCountsUpTo(sorted, FirstIndex(sorted, Fatal), i);
    }
  }

  lemma {:induction false} FinalPhaseSkips(sorted: seq<Hook>)
    requires DistinctIds(sorted)
    ensures forall i: nat :: i < |sorted| && sorted[i].pre.Some? ==>
      Times(PhaseEvents(Active(sorted), FinPhase), Fin(sorted[i].id)) == 0
  {
    ActiveDistinct(sorted);
    PhaseReachesAll(Active(sorted), FinPhase);
    assert sorted[..|sorted|] == sorted;
    forall i: nat | i < |sorted| && sorted[i].pre.Some?
      ensures Times(PhaseEvents(Active(sorted), FinPhase), Fin(sorted[i].id)) == 0
    {
      ActiveCount(sorted, |sorted|, i);
      assert Times(PhaseEvents(Active(sorted), FinPhase), EventOf(sorted[i].id, FinPhase)) == 0;
    }
  }

  lemma {:induction false} FinalPhaseReaches(sorted: seq<Hook>)
    requires DistinctIds(sorted) && FirstIndex(sorted, Fatal) == |sorted|
    ensures (forall i: nat :: i < |sorted| && sorted[i].pre.None? ==>
        Times(PhaseEvents(Active(sorted), FinPhase), Fin(sorted[i].id)) == 1)
      <==> !Leaks(sorted)
  {
    var active, last := Active(sorted), PhaseEvents(Active(sorted), FinPhase);
    ActiveDistinct(sorted);
    PhaseReachesAll(active, FinPhase);
    assert Leaks(sorted) <==> !(forall i :: 0 < i < |active| ==> !Aborts(active[i], FinPhase));
    assert !Leaks(sorted) <==> (forall h :: h in active ==> Times(last, EventOf(h.id, FinPhase)) == 1);
    ActiveByIndex(sorted, last);
  }

  lemma {:induction false} ActiveByIndex(sorted: seq<Hook>, last: seq<Event>)
    ensures (forall i: nat :: i < |sorted| && sorted[i].pre.None? ==> Times(last, Fin(sorted[i].id)) == 1)
      <==> (forall h :: h in Active(sorted) ==> Times(last, EventOf(h.id, FinPhase)) == 1)
  {
    if forall i: nat :: i < |sorted| && sorted[i].pre.None? ==> Times(last, Fin(sorted[i].id)) == 1 {
      forall h | h in Active(sorted) ensures Times(last, EventOf(h.id, FinPhase)) == 1 {
        var i: nat :| i < |sorted| && sorted[i] == h;
      }
    } else {
      var i: nat :| i < |sorted| && sorted[i].pre.None? && Times(last, Fin(sorted[i].id)) != 1;
      assert sorted[i] in Active(sorted);
      assert Times(last, EventOf(sorted[i].id, FinPhase)) != 1;
    }
  }

  /** Nothing ends the phase early: only the hook started first, which comes last in it, may fail
      it under an invalid error mode. */
  predicate Completes(active: seq<Hook>, phase: Phase) {
    forall i :: 0 < i < |active| ==> !Aborts(active[i], phase)
  }

  lemma {:induction false} PhaseIsWhole(active: seq<Hook>, phase: Phase)
    ensures Completes(active, phase) ==> PhaseEvents(active, phase) == Events(Reverse(active), phase)
    ensures !Completes(active, phase) ==> |PhaseEvents(active, phase)| < |active|
    ensures |PhaseEvents(active, phase)| <= |active|
  {
    hide Aborts, Reverse, Events;
    var ordered, n := Reverse(active), |active|;
    var k, first := Reached(ordered, phase), FirstIndex(ordered, AbortsIn(phase));
    if k == n {
      assert ordered[..k] == ordered;
      forall i | 0 < i < n ensures !Aborts(active[i], phase) {
        Mirrored(active, n - 1 - i);
        assert !AbortsIn(phase)(ordered[n - 1 - i]);
      }
    } else {
      Mirrored(active, first);
      assert AbortsIn(phase)(ordered[first]) && n - 1 - first > 0;
    }
  }

  lemma {:induction false} Mirrored(hs: seq<Hook>, i: nat)
    requires i < |hs|
    ensures Reverse(hs)[i] == hs[|hs| - 1 - i]
  {
  }

  /** The phase an outcome of the function leads to. */
  function PhaseAfter(fn: FnOutcome, mapping: Mapping): Phase {
    if fn.Returns? then PostPhase else ErrorPhase(Propagated(fn, mapping))
  }

  /** `map_exception` itself raises, before any on_error. */
  predicate MapperFails(fn: FnOutcome, mapping: Mapping) {
    fn.Ordinary? && mapping.MapRaises?
  }

  /** The trace a block promises: the pre hooks in priority order; if the body calls
      `hooked_call`, the function and then post_hook or on_error of every active hook in reverse;
      then finalize of every active hook in reverse. */
  function Bracket(sorted: seq<Hook>, calls: seq<(FnOutcome, Mapping)>): seq<Event> {
    var backwards := Reverse(Active(sorted));
    PreEvents(sorted)
    + (if calls == [] then [] else [Fn] + Events(backwards, PhaseAfter(calls[0].0, calls[0].1)))
    + Events(backwards, FinPhase)
  }

  /** The condition for it, which hooks and mapper can be checked for before the block. */
  predicate KeepsBracket(active: seq<Hook>, calls: seq<(FnOutcome, Mapping)>) {
    Completes(active, FinPhase)
    && (calls != [] ==>
          Completes(active, PhaseAfter(calls[0].0, calls[0].1))
          && (MapperFails(calls[0].0, calls[0].1) ==> active == []))
  }

  lemma {:induction false} BodyIsWhole(active: seq<Hook>, calls: seq<(FnOutcome, Mapping)>)
    requires calls != []
    ensures var phase := PhaseAfter(calls[0].0, calls[0].1);
      |BodyEvents(active, calls)| <= 1 + |active|
      && (Completes(active, phase) && (MapperFails(calls[0].0, calls[0].1) ==> active == []) ==>
            BodyEvents(active, calls) == [Fn] + Events(Reverse(active), phase))
      && (!(Completes(active, phase) && (MapperFails(calls[0].0, calls[0].1) ==> active == [])) ==>
            |BodyEvents(active, calls)| < 1 + |active|)
  {
    hide PhaseEvents, Reached, Completes;
    PhaseIsWhole(active, PhaseAfter(calls[0].0, calls[0].1));
    if active == [] {
      assert Reverse(active) == [] && Events([], PhaseAfter(calls[0].0, calls[0].1)) == [];
    }
  }

  /** Once preparation has succeeded, the trace of a block is the bracket, however often the body
      calls `hooked_call`, if and only if no phase is ended early by an invalid error mode and no
      failing `map_exception` keeps the active hooks from their on_error. */
  lemma {:induction false} WellBracketed(sorted: seq<Hook>, calls: seq<(FnOutcome, Mapping)>)
    requires FirstIndex(sorted, Fatal) == |sorted|
    ensures BlockEvents(sorted, calls) == Bracket(sorted, calls) <==> KeepsBracket(Active(sorted), calls)
  {
    hide PhaseEvents, BodyEvents, Completes;
    var active := Active(sorted);
    var body, last := BodyEvents(active, calls), PhaseEvents(active, FinPhase);
    NoneFatal(sorted);
    PhaseIsWhole(active, FinPhase);
    assert BlockEvents(sorted, calls) == PreEvents(sorted) + (body + last);
    Assoc(PreEvents(sorted), body, last);
    if calls == [] {
      assert body == [] by {
        NoCalls(active);
      }
      assert PreEvents(sorted) + [] == PreEvents(sorted);
    } else {
      BodyIsWhole(active, calls);
    }
  }

  lemma {:induction false} NoCalls(active: seq<Hook>)
    ensures BodyEvents(active, []) == []
  {
  }

  /** Each active hook gets exactly one post_hook or on_error if and only if `map_exception` does
      not itself raise and no hook but the first started fails the phase under an invalid mode. */
  lemma {:induction false} CallReachesAll(active: seq<Hook>, fn: FnOutcome, mapping: Mapping)
    requires DistinctIds(active) && active != []
    ensures (forall h :: h in active ==>
        Times(CallEvents(active, fn, mapping), EventOf(h.id, PhaseAfter(fn, mapping))) == 1)
      <==> !MapperFails(fn, mapping) && Completes(active, PhaseAfter(fn, mapping))
  {
    hide PhaseEvents, Aborts, Times;
    var phase := PhaseAfter(fn, mapping);
    PhaseReachesAll(active, phase);
    forall h | h in active
      ensures Times(CallEvents(active, fn, mapping), EventOf(h.id, phase)) ==
        if MapperFails(fn, mapping) then 0 else Times(PhaseEvents(active, phase), EventOf(h.id, phase))
    {
      FnOnly(EventOf(h.id, phase));
      TimesConcat([Fn], if MapperFails(fn, mapping) then [] else PhaseEvents(active, phase), EventOf(h.id, phase));
    }
    assert active[0] in active;
  }

  /** Which event each active hook gets once, when no invalid mode ends the phase early: post_hook if
      the function returned, else on_error with what it raised or what that was mapped to. */
  lemma {:induction false} CallReachesWith(active: seq<Hook>, fn: FnOutcome, mapping: Mapping, h: Hook)
    requires DistinctIds(active) && h in active
    requires forall i :: 0 < i < |active| && active[i].mode == Invalid ==>
      if fn.Returns? then active[i].post.None? else active[i].onError.None?
    ensures fn.Returns? ==> Times(CallEvents(active, fn, mapping), Post(h.id)) == 1
    ensures fn.Handled? || fn.Base? || (fn.Ordinary? && mapping.NoMap?) ==>
      Times(CallEvents(active, fn, mapping), OnError(h.id, fn.exn)) == 1
    ensures fn.Ordinary? && mapping.MapsTo? ==> Times(CallEvents(active, fn, mapping), OnError(h.id, mapping.exn)) == 1
  {
    hide PhaseEvents, Times, CallEvents;
    CallReachesAll(active, fn, mapping);
  }

  lemma {:induction false} FnOnly(e: Event)
    requires !e.Fn?
    ensures Times([Fn], e) == 0 && Times([], e) == 0
  {
  }

  /** A raise-mode hook that fails its pre_hook but not its finalize: nothing after it is
      started, the function is never called, every hook started so far is finalized exactly
      once, and the hook's own exception leaves. */
  lemma {:induction false} PreHookFailure(sorted: seq<Hook>, calls: seq<(FnOutcome, Mapping)>)
    requires DistinctIds(sorted) && FirstIndex(sorted, Fatal) < |sorted| && CleansUp(sorted[FirstIndex(sorted, Fatal)])
    ensures var k, trace := FirstIndex(sorted, Fatal), BlockEvents(sorted, calls);
      && BlockResultOf(sorted, calls) == NotEntered(sorted[k].pre.value)
      && Times(trace, Fn) == 0
      && forall i: nat :: i < |sorted| ==>
           Times(trace, Pre(sorted[i].id)) == (if i <= k then 1 else 0)
           && Times(trace, Fin(sorted[i].id)) == (if i <= k then 1 else 0)
  {
    var k := FirstIndex(sorted, Fatal);
    assert BlockEvents(sorted, calls) == PrepareEvents(sorted);
    PrepareNeverCalls(sorted);
    forall i: nat | i < |sorted|
      ensures Times(PrepareEvents(sorted), Pre(sorted[i].id)) == (if i <= k then 1 else 0)
      ensures Times(PrepareEvents(sorted), Fin(sorted[i].id)) == (if i <= k then 1 else 0)
    {
      StartCountsUpTo(sorted, k, i);
      FinCountsUpTo(sorted, k, i);
    }
  }

  /** What calling the function without hooks does, its `Exception`s passed through the mapper. */
  function Bare(fn: FnOutcome, mapping: Mapping): Outcome {
    match (fn, mapping)
    case (Returns(v), _) => Value(v)
    case (Ordinary(_), MapsTo(m)) => Raised(m)
    case (Ordinary(_), MapRaises(m)) => Raised(m)
    case _ => Raised(fn.exn)
  }

  function FailsStrictly(phase: Phase): Hook -> bool {
    (h: Hook) => Failure(h, phase).Some? && h.mode == Raise
  }

  /** `errors` pairs each hook of `hs` with the exception it raised in the phase. */
  ghost predicate ErrorsOf(errors: seq<(nat, Exn)>, hs: seq<Hook>, phase: Phase) {
    |errors| == |hs| && forall i :: 0 <= i < |hs| ==> Failure(hs[i], phase) == Some(errors[i].1) && errors[i].0 == hs[i].id
  }

  lemma {:induction false} StrictErrorsAreFailures(ordered: seq<Hook>, phase: Phase)
    ensures ErrorsOf(StrictErrors(ordered, phase), Filter(ordered, FailsStrictly(phase)), phase)
  {
    if ordered != [] {
      var h, rest := ordered[0], ordered[1..];
      StrictErrorsAreFailures(rest, phase);
      var strict, errors := Filter(rest, FailsStrictly(phase)), StrictErrors(rest, phase);
      if FailsStrictly(phase)(h) {
        assert Filter(ordered, FailsStrictly(phase)) == [h] + strict;
        assert StrictErrors(ordered, phase) == [(h.id, Failure(h, phase).value)] + errors;
      } else {
        assert StrictErrors(ordered, phase) == errors;
      }
    }
  }

  /** Hooked execution refines the bare call, with or without `map_exception`. It differs from it
      only when the function returned and some hook not in warn mode failed its post_hook. Then it
      raises a `HookPhaseError` listing exactly the raise-mode failures, last started hook first, or
      the ValueError of an invalid error mode if a failing hook has one. Failures of on_error and
      finalize do not enter the result at all. */
  lemma {:induction false} OutcomeRefinesBareCall(active: seq<Hook>, fn: FnOutcome, mapping: Mapping)
    ensures CallResult(active, fn, mapping) == Bare(fn, mapping) <==>
      !(fn.Returns? && exists h :: h in active && h.post.Some? && h.mode != Warn)
    ensures CallResult(active, fn, mapping) != Bare(fn, mapping) ==> CallResult(active, fn, mapping).Raised?
    ensures CallResult(active, fn, mapping) != Bare(fn, mapping) && (exists h :: h in active && Aborts(h, PostPhase)) ==>
      CallResult(active, fn, mapping).exn == InvalidMode
    ensures CallResult(active, fn, mapping) != Bare(fn, mapping) && !(exists h :: h in active && Aborts(h, PostPhase)) ==>
      (CallResult(active, fn, mapping).exn.HookPhaseError?
       && ErrorsOf(CallResult(active, fn, mapping).exn.errors, Filter(Reverse(active), FailsStrictly(PostPhase)), PostPhase))
  {
    var backwards := Reverse(active);
    SameElements(active);
    StrictErrorsAreFailures(backwards, PostPhase);
    var strict := Filter(backwards, FailsStrictly(PostPhase));
    if exists h :: h in active && FailsStrictly(PostPhase)(h) {
      var h :| h in active && FailsStrictly(PostPhase)(h);
      assert h in backwards && h in strict;
    } else {
      FilterNone(backwards, FailsStrictly(PostPhase));
    }
    assert strict == [] <==> forall h :: h in active ==> !FailsStrictly(PostPhase)(h);
  }

  lemma {:induction false} SameElements(hs: seq<Hook>)
    ensures forall h :: h in Reverse(hs) <==> h in hs
  {
    var r := Reverse(hs);
    forall h | h in hs ensures h in r {
      var i :| 0 <= i < |hs| && hs[i] == h;
      assert r[|hs| - 1 - i] == h;
    }
  }

  /** Every hook has one of the two documented error modes. */
  predicate ValidModes(hs: seq<Hook>) {
    forall h :: h in hs ==> h.mode != Invalid
  }

  /** One hook leaks another: the second hook fails its pre_hook in raise mode and then its
      own finalize, as the inherited `finalize` does; the first is never finalized. */
  lemma {:induction false} LeakExists()
    ensures exists sorted :: DistinctIds(sorted) && ValidModes(sorted) && Leaks(sorted)
  {
    var first := Hook(0, 0, Warn, None, None, None, None);
    var second := Hook(1, 1, Raise, Some(User(1)), None, None, Some(User(2)));
    var sorted := [first, second];
    assert sorted[1..] == [second];
    assert FirstIndex(sorted, Fatal) == 1;
    assert sorted[..1] == [first] && Active([first]) == [first];
    assert Leaks(sorted);
  }

  lemma {:induction false} InsertKeepsCount(h: Hook, hs: seq<Hook>, id: nat)
    ensures CountId(Insert(h, hs, Priority()), id) == (if h.id == id then 1 else 0) + CountId(hs, id)
  {
    if hs == [] || h.priority <= hs[0].priority {
      CountIdConcat([h], hs, id);
    } else {
      InsertKeepsCount(h, hs[1..], id);
      CountIdConcat([hs[0]], Insert(h, hs[1..], Priority()), id);
    }
  }

  lemma {:induction false} SortKeepsCount(hs: seq<Hook>, id: nat)
    ensures CountId(Sort(hs, Priority()), id) == CountId(hs, id)
  {
    if hs != [] {
      SortKeepsCount(hs[1..], id);
      InsertKeepsCount(hs[0], Sort(hs[1..], Priority()), id);
    }
  }

  lemma {:induction false} CountTwice(hs: seq<Hook>, i: nat, j: nat)
    requires i < j < |hs| && hs[i].id == hs[j].id
    ensures CountId(hs, hs[i].id) >= 2
  {
    if i > 0 {
      CountTwice(hs[1..], i - 1, j - 1);
    } else {
      var rest := hs[1..];
      assert rest == rest[..j - 1] + ([hs[j]] + rest[j..]);
      CountIdConcat(rest[..j - 1], [hs[j]] + rest[j..], hs[j].id);
      CountIdConcat([hs[j]], rest[j..], hs[j].id);
    }
  }

  /** Sorting keeps the hook objects apart, so the counting results apply to every block. */
  lemma {:induction false} SortKeepsDistinctIds(hs: seq<Hook>)
    requires DistinctIds(hs)
    ensures DistinctIds(Sort(hs, Priority()))
  {
    var sorted := Sort(hs, Priority());
    forall i, j | 0 <= i < j < |sorted| ensures sorted[i].id != sorted[j].id {
      if sorted[i].id == sorted[j].id {
        CountTwice(sorted, i, j);
        SortKeepsCount(hs, sorted[i].id);
        if h :| h in hs && h.id == sorted[i].id {
          var k :| 0 <= k < |hs| && hs[k] == h;
          CountIdOnce(hs, k);
        } else {
          CountIdAbsent(hs, sorted[i].id);
        }
      }
    }
  }
}
