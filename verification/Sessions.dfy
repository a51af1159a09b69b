/** Sessions, local scopes and call stacks: what `globals` and `locals` keep in context variables
    and in tables by session id, and what well-nested use of them leaves behind. A run is a
    program of bracketed blocks; threads run in a copy of their starter's context. */
module Sessions {
  import opened Sequences

  datatype Store = Globals | Locals

  function Other(st: Store): Store {
    if st.Globals? then Locals else Globals
  }

  /** A session id: given by a caller, made from a thread's identity, or made from a fresh uuid. */
  datatype Sid = Named(name: string) | OfThread(thread: nat) | Uuid(n: nat)

  datatype Stack = Stack(sid: Option<Sid>, modules: seq<string>)

  /** The context variables of one of the two objects. */
  datatype Vars = Vars(sid: Option<Sid>, stack: Stack)

  datatype Context = Context(thread: nat, globals: Vars, locals: Vars) {
    function Of(st: Store): Vars {
      if st.Globals? then globals else locals
    }

    function With(st: Store, v: Vars): Context {
      if st.Globals? then this.(globals := v) else this.(locals := v)
    }
  }

  /** A mutable object, named by when and for which key it was made. */
  datatype Ref = Ref(made: nat, key: string)

  datatype Value = Atom(n: int) | Object(ref: Ref)

  type Data = map<string, Value>

  /** All sessions' data, the default attributes of both classes, and what the objects hold. */
  datatype World = World(globals: map<Sid, Data>, locals: map<Sid, Data>, globalAttrs: Data, localAttrs: Data,
                         objects: map<Ref, seq<int>>, made: nat, uuids: nat) {
    function Of(st: Store): map<Sid, Data> {
      if st.Globals? then globals else locals
    }

    function Attrs(st: Store): Data {
      if st.Globals? then globalAttrs else localAttrs
    }
  }

  datatype Exc = KeyError | IndexError | User(n: int)

  datatype Outcome = Done | Raised(exc: Exc)

  /** The argument of `_bind_sid` and `_scope`: a given id, or the one currently seen. */
  datatype Target = Given(name: string) | Current

  datatype Prog =
    | Skip
    | Raise(exc: Exc)
    | Then(first: Prog, second: Prog)
    | Try(body: Prog)                                        // catches whatever the body raises
    | Assign(st: Store, key: string, n: int)                 // store a new object
    | Append(st: Store, key: string, n: int)                 // look an object up and change it in place
    | Clear(st: Store)
    | Push(st: Store, mod: string)                           // push_stack, pop_stack and _init_sid alone
    | Pop(st: Store)
    | Init(st: Store, name: string)
    | StackEnter(st: Store, mod: string, body: Prog)
    | BindSid(st: Store, target: Target, body: Prog)
    | Scope(given: Option<Target>, body: Prog)               // locals._scope
    | Spawn(child: nat, inherit: bool, body: Prog)           // a Thread, joined by get_result

  datatype Result = Result(outcome: Outcome, ctx: Context, w: World)

  // ---------------------------------------------------------------- the operations

  /** `copy.deepcopy` of the default attributes: every object in them is made anew. */
  function DeepCopied(d: Data, made: nat): Data {
    map k | k in d :: if d[k].Object? then Object(Ref(made, k)) else d[k]
  }

  function CopiedObjects(d: Data, w: World): map<Ref, seq<int>> {
    map r | r in (set k | k in d && d[k].Object? && d[k].ref in w.objects :: Ref(w.made, k)) ::
      w.objects[d[r.key].ref]
  }

  function NewSession(st: Store, sid: Sid, w: World): World {
    var d, objects := DeepCopied(w.Attrs(st), w.made), w.objects + CopiedObjects(w.Attrs(st), w);
    if st.Globals? then w.(globals := w.globals[sid := d], objects := objects, made := w.made + 1)
    else w.(locals := w.locals[sid := d], objects := objects, made := w.made + 1)
  }

  lemma {:induction false} NewSessionIs(st: Store, sid: Sid, w: World)
    ensures var u := NewSession(st, sid, w);
      u.Of(st) == w.Of(st)[sid := DeepCopied(w.Attrs(st), w.made)] && u.Of(Other(st)) == w.Of(Other(st))
      && u.globalAttrs == w.globalAttrs && u.localAttrs == w.localAttrs && u.uuids == w.uuids
      && u.objects == w.objects + CopiedObjects(w.Attrs(st), w) && u.made == w.made + 1
  {
    hide DeepCopied, CopiedObjects;
  }

  function IdOf(st: Store, ctx: Context, w: World): Sid {
    match ctx.Of(st).sid
    case Some(sid) => sid
    case None => if st.Globals? then OfThread(ctx.thread) else Uuid(w.uuids)
  }

  function Drawn(st: Store, ctx: Context, w: World): World {
    if ctx.Of(st).sid.None? && st.Locals? then w.(uuids := w.uuids + 1) else w
  }

  function WithSession(st: Store, sid: Sid, w: World): World {
    if sid in w.Of(st) then w else NewSession(st, sid, w)
  }

  /** Reading `_sid`: a session id is made up if there is none, and its data if there are none. */
  function Look(st: Store, ctx: Context, w: World): (r: (Context, World))
    ensures r.0.Of(st).sid.Some? && r.0.Of(st).sid.value in r.1.Of(st)
  {
    (SetSid(st, ctx, Some(IdOf(st, ctx, w))), WithSession(st, IdOf(st, ctx, w), Drawn(st, ctx, w)))
  }

  function Seen(st: Store, ctx: Context): Sid
    requires ctx.Of(st).sid.Some?
  {
    ctx.Of(st).sid.value
  }

  /** `_current_call_stack`: the stack counts only in the session it was pushed in. */
  function Visible(v: Vars): seq<string> {
    if v.sid.Some? && v.stack.sid == v.sid then v.stack.modules else []
  }

  function SetSid(st: Store, ctx: Context, sid: Option<Sid>): Context {
    ctx.With(st, ctx.Of(st).(sid := sid))
  }

  function SetStack(st: Store, ctx: Context, stack: Stack): Context {
    ctx.With(st, ctx.Of(st).(stack := stack))
  }

  /** Storing a new object under a key. */
  function Assigned(st: Store, sid: Sid, key: string, n: int, u: World): (v: World)
    requires sid in u.Of(st)
    ensures v.Of(st) == u.Of(st)[sid := u.Of(st)[sid][key := Object(Ref(u.made, key))]]
    ensures v.Of(Other(st)) == u.Of(Other(st)) && v.globalAttrs == u.globalAttrs && v.localAttrs == u.localAttrs
    ensures v.objects == u.objects[Ref(u.made, key) := [n]] && v.made == u.made + 1 && v.uuids == u.uuids
  {
    var d, objects := u.Of(st)[sid][key := Object(Ref(u.made, key))], u.objects[Ref(u.made, key) := [n]];
    if st.Globals? then u.(globals := u.globals[sid := d], objects := objects, made := u.made + 1)
    else u.(locals := u.locals[sid := d], objects := objects, made := u.made + 1)
  }

  /** Changing an object in place. */
  function Mutated(r: Ref, n: int, u: World): (v: World)
    requires r in u.objects
    ensures v.uuids == u.uuids
  {
    u.(objects := u.objects[r := u.objects[r] + [n]])
  }

  function Dropped(st: Store, sid: Sid, u: World): (v: World)
    ensures v.uuids == u.uuids
  {
    if st.Globals? then u.(globals := u.globals - {sid}) else u.(locals := u.locals - {sid})
  }

  /** `__getitem__`; a key missing in `locals` is looked up in `globals`. */
  function GetItem(st: Store, key: string, ctx: Context, w: World): (Option<Value>, Context, World)
  {
    var (c, u) := Look(st, ctx, w);
    var d := u.Of(st)[Seen(st, c)];
    if key in d then (Some(d[key]), c, u)
    else if st.Globals? then (None, c, u)
    else
      var (c1, u1) := Look(Globals, c, u);
      var g := u1.globals[Seen(Globals, c1)];
      (if key in g then Some(g[key]) else None, c1, u1)
  }

  /** The basic statements. */
  function Basic(p: Prog, ctx: Context, w: World): Result
  {
    match p
    case Raise(e) => Result(Raised(e), ctx, w)
    case Assign(st, key, n) =>
      var (c, u) := Look(st, ctx, w);
      Result(Done, c, Assigned(st, Seen(st, c), key, n, u))
    case Append(st, key, n) =>
      var (v, c, u) := GetItem(st, key, ctx, w);
      if v.None? then Result(Raised(KeyError), c, u)
      else if v.value.Object? && v.value.ref in u.objects then
        Result(Done, c, Mutated(v.value.ref, n, u))
      else Result(Done, c, u)
    case Clear(st) =>
      var (c, u) := Look(st, ctx, w);
      Result(Done, c, Dropped(st, Seen(st, c), u))
    case Push(st, m) =>
      var (c, u) := Look(st, ctx, w);
      Result(Done, SetStack(st, c, Stack(c.Of(st).sid, Visible(c.Of(st)) + [m])), u)
    case Pop(st) =>
      var (c, u) := Look(st, ctx, w);
      var seen := Visible(c.Of(st));
      if seen == [] then Result(Raised(IndexError), c, u)
      else Result(Done, SetStack(st, c, Stack(c.Of(st).sid, seen[..|seen| - 1])), u)
    case Init(st, name) => Result(Done, SetSid(st, ctx, Some(Named(name))), w)
    case _ => Result(Done, ctx, w)
  }

  /** The id a target stands for; asking for the current one is a read of `_sid`. */
  function Resolve(st: Store, target: Target, ctx: Context, w: World): (Sid, Context, World)
  {
    match target
    case Given(name) => (Named(name), ctx, w)
    case Current =>
      var (c, u) := Look(st, ctx, w);
      (Seen(st, c), c, u)
  }

  function Exec(p: Prog, ctx: Context, w: World): (r: Result)
    decreases p, 0
  {
    match p
    case Then(a, b) =>
      var r := Exec(a, ctx, w);
      if r.outcome.Raised? then r else Exec(b, r.ctx, r.w)
    case Try(b) => Exec(b, ctx, w).(outcome := Done)
    case StackEnter(st, m, b) =>
      var pushed := Basic(Push(st, m), ctx, w);
      var r := Exec(b, pushed.ctx, pushed.w);
      // the token restores the variable to what it held before the push
      r.(ctx := SetStack(st, r.ctx, ctx.Of(st).stack))
    case BindSid(st, t, b) =>
      var (sid, c, u) := Resolve(st, t, ctx, w);
      var r := Exec(b, SetSid(st, c, Some(sid)), u);
      r.(ctx := SetSid(st, r.ctx, c.Of(st).sid))
    case Scope(Some(t), b) =>
      var (sid, c, u) := Resolve(Locals, t, ctx, w);
      var r := Exec(b, SetSid(Locals, c, Some(sid)), u);
      r.(ctx := SetSid(Locals, r.ctx, c.locals.sid))
    case Scope(None, b) => ExecOwned(b, ctx, w)
    case Spawn(child, inherit, b) =>
      var (c, u) := Look(Globals, ctx, w);
      if inherit then
        var (c1, u1) := Look(Locals, c, u);
        var r := Exec(b, ChildOf(c1, child), u1);
        Result(r.outcome, c1, r.w)
      else
        var r := ExecOwned(b, ChildOf(c, child), u);
        Result(r.outcome, c, r.w)
    case _ => Basic(p, ctx, w)
  }

  /** `_scope()`: bind a fresh id, run, drop its data, unbind. */
  function ExecOwned(b: Prog, ctx: Context, w: World): (r: Result)
    decreases b, 1
  {
    var sid := Uuid(w.uuids);
    var r := Exec(b, SetSid(Locals, ctx, Some(sid)), w.(uuids := w.uuids + 1));
    Result(r.outcome, SetSid(Locals, r.ctx, ctx.locals.sid), Dropped(Locals, sid, r.w))
  }

  /** The copied context a thread starts in; its global session id is set to its starter's. */
  function ChildOf(ctx: Context, child: nat): Context {
    ctx.(thread := child)
  }

  // ---------------------------------------------------------------- context variables come back

  datatype Var = SidOf(st: Store) | StackOf(st: Store)

  /** `push_stack`, `pop_stack` and `_init_sid` occur only inside a block that restores the
      variable they set; `free` are the variables an enclosing block restores. */
  predicate WellNested(p: Prog, free: set<Var>) {
    match p
    case Push(st, _) => StackOf(st) in free
    case Pop(st) => StackOf(st) in free
    case Init(st, _) => SidOf(st) in free
    case Then(a, b) => WellNested(a, free) && WellNested(b, free)
    case Try(b) => WellNested(b, free)
    case StackEnter(st, _, b) => WellNested(b, free + {StackOf(st)})
    case BindSid(st, _, b) => WellNested(b, free + {SidOf(st)})
    case Scope(_, b) => WellNested(b, free + {SidOf(Locals)})
    case _ => true
  }

  /** The variable holds what it held, or a session id was made up where there was none. */
  ghost predicate SidKept(st: Store, a: Context, b: Context) {
    b.Of(st).sid == a.Of(st).sid
    || (a.Of(st).sid.None? && (st.Globals? ==> b.Of(st).sid == Some(OfThread(a.thread))))
  }

  ghost predicate Kept(free: set<Var>, a: Context, b: Context) {
    && b.thread == a.thread
    && (forall st :: StackOf(st) !in free ==> b.Of(st).stack == a.Of(st).stack)
    && (forall st :: SidOf(st) !in free ==> SidKept(st, a, b))
  }

  lemma {:induction false} LookKeeps(st: Store, ctx: Context, w: World, free: set<Var>)
    ensures Kept(free, ctx, Look(st, ctx, w).0)
  {
    var c := Look(st, ctx, w).0;
    LookContext(st, ctx, w);
    hide Look;
    assert forall x :: SidKept(x, ctx, c);
  }

  /** A look changes no more than an id that was not there. */
  lemma {:induction false} LookContext(st: Store, ctx: Context, w: World)
    ensures var c := Look(st, ctx, w).0;
      c == SetSid(st, ctx, c.Of(st).sid) && (ctx.Of(st).sid.Some? ==> c.Of(st).sid == ctx.Of(st).sid)
      && (ctx.Of(st).sid.None? ==> c.Of(st).sid == Some(if st.Globals? then OfThread(ctx.thread) else Uuid(w.uuids)))
  {
    hide DeepCopied, CopiedObjects;
  }

  lemma {:induction false} SetStackKeeps(st: Store, ctx: Context, stack: Stack, free: set<Var>)
    requires StackOf(st) in free
    ensures Kept(free, ctx, SetStack(st, ctx, stack))
  {
  }

  lemma {:induction false} SetSidKeeps(st: Store, ctx: Context, sid: Option<Sid>, free: set<Var>)
    requires SidOf(st) in free
    ensures Kept(free, ctx, SetSid(st, ctx, sid))
  {
  }

  lemma {:induction false} BasicKeeps(p: Prog, ctx: Context, w: World, free: set<Var>)
    requires WellNested(p, free)
    ensures Kept(free, ctx, Basic(p, ctx, w).ctx)
  {
    hide Look, SetSid, SetStack, SidKept;
    var after := Basic(p, ctx, w).ctx;
    match p {
      case Assign(st, _, _) => LookKeeps(st, ctx, w, free);
      case Append(st, key, _) =>
        var (c, u) := Look(st, ctx, w);
        LookKeeps(st, ctx, w, free);
        LookKeeps(Globals, c, u, free);
        KeptTwice(free, ctx, c, Look(Globals, c, u).0);
      case Clear(st) => LookKeeps(st, ctx, w, free);
      case Push(st, m) =>
        var (c, u) := Look(st, ctx, w);
        LookKeeps(st, ctx, w, free);
        SetStackKeeps(st, c, Stack(c.Of(st).sid, Visible(c.Of(st)) + [m]), free);
        KeptTwice(free, ctx, c, after);
      case Pop(st) =>
        var (c, u) := Look(st, ctx, w);
        LookKeeps(st, ctx, w, free);
        var seen := Visible(c.Of(st));
        if seen != [] {
          SetStackKeeps(st, c, Stack(c.Of(st).sid, seen[..|seen| - 1]), free);
          KeptTwice(free, ctx, c, after);
        }
      case Init(st, name) => SetSidKeeps(st, ctx, Some(Named(name)), free);
      case _ => SameKept(free, ctx);
    }
  }

  lemma {:induction false} SameKept(free: set<Var>, ctx: Context)
    ensures Kept(free, ctx, ctx)
  {
  }

  lemma {:induction false} KeptTwice(free: set<Var>, a: Context, b: Context, c: Context)
    requires Kept(free, a, b) && Kept(free, b, c)
    ensures Kept(free, a, c)
  {
    forall st | SidOf(st) !in free ensures SidKept(st, a, c) {
      assert SidKept(st, a, b) && SidKept(st, b, c);
    }
  }

  /** Whatever raises, every variable that no enclosing block restores is back. */
  lemma {:induction false} ExecKeeps(p: Prog, ctx: Context, w: World, free: set<Var>)
    requires WellNested(p, free)
    ensures Kept(free, ctx, Exec(p, ctx, w).ctx)
    decreases p
  {
    hide Look, Basic, SidKept;
    match p {
      case Then(a, b) =>
        var r := Exec(a, ctx, w);
        ExecKeeps(a, ctx, w, free);
        if r.outcome.Done? {
          ExecKeeps(b, r.ctx, r.w, free);
          KeptTwice(free, ctx, r.ctx, Exec(b, r.ctx, r.w).ctx);
        }
      case Try(b) =>
        ExecKeeps(b, ctx, w, free);
      case StackEnter(st, m, b) =>
        var pushed := Basic(Push(st, m), ctx, w);
        BasicKeeps(Push(st, m), ctx, w, free + {StackOf(st)});
        ExecKeeps(b, pushed.ctx, pushed.w, free + {StackOf(st)});
        KeptTwice(free + {StackOf(st)}, ctx, pushed.ctx, Exec(b, pushed.ctx, pushed.w).ctx);
        StackBack(st, free, ctx, Exec(b, pushed.ctx, pushed.w).ctx);
      case BindSid(st, t, b) =>
        var (sid, c, u) := Resolve(st, t, ctx, w);
        ResolveKeeps(st, t, ctx, w, free);
        var bound := SetSid(st, c, Some(sid));
        ExecKeeps(b, bound, u, free + {SidOf(st)});
        SidBack(st, free, c, sid, Exec(b, bound, u).ctx);
        KeptTwice(free, ctx, c, Exec(p, ctx, w).ctx);
      case Scope(Some(t), b) =>
        var (sid, c, u) := Resolve(Locals, t, ctx, w);
        ResolveKeeps(Locals, t, ctx, w, free);
        var bound := SetSid(Locals, c, Some(sid));
        ExecKeeps(b, bound, u, free + {SidOf(Locals)});
        SidBack(Locals, free, c, sid, Exec(b, bound, u).ctx);
        KeptTwice(free, ctx, c, Exec(p, ctx, w).ctx);
      case Scope(None, b) =>
        var bound, u := SetSid(Locals, ctx, Some(Uuid(w.uuids))), w.(uuids := w.uuids + 1);
        ExecKeeps(b, bound, u, free + {SidOf(Locals)});
        SidBack(Locals, free, ctx, Uuid(w.uuids), Exec(b, bound, u).ctx);
      case Spawn(child, inherit, b) =>
        var (c, u) := Look(Globals, ctx, w);
        LookKeeps(Globals, ctx, w, free);
        LookKeeps(Locals, c, u, free);
        KeptTwice(free, ctx, c, Look(Locals, c, u).0);
      case _ =>
        BasicKeeps(p, ctx, w, free);
    }
  }

  lemma {:induction false} ResolveKeeps(st: Store, t: Target, ctx: Context, w: World, free: set<Var>)
    ensures Kept(free, ctx, Resolve(st, t, ctx, w).1)
  {
    hide Look;
    LookKeeps(st, ctx, w, free);
    SameKept(free, ctx);
  }

  lemma {:induction false} StackBack(st: Store, free: set<Var>, ctx: Context, after: Context)
    requires Kept(free + {StackOf(st)}, ctx, after)
    ensures Kept(free, ctx, SetStack(st, after, ctx.Of(st).stack))
  {
    hide SidKept;
    var back := SetStack(st, after, ctx.Of(st).stack);
    forall x | SidOf(x) !in free ensures SidKept(x, ctx, back) {
      assert SidKept(x, ctx, after);
      SameSids(x, ctx, after, back);
    }
    assert forall x :: StackOf(x) !in free && x != st ==> StackOf(x) !in free + {StackOf(st)};
  }

  lemma {:induction false} SameSids(st: Store, a: Context, b: Context, c: Context)
    requires SidKept(st, a, b) && c.Of(st).sid == b.Of(st).sid
    ensures SidKept(st, a, c)
  {
  }

  lemma {:induction false} SidBack(st: Store, free: set<Var>, ctx: Context, sid: Sid, after: Context)
    requires Kept(free + {SidOf(st)}, SetSid(st, ctx, Some(sid)), after)
    ensures Kept(free, ctx, SetSid(st, after, ctx.Of(st).sid))
  {
    var bound := SetSid(st, ctx, Some(sid));
    var back := SetSid(st, after, ctx.Of(st).sid);
    forall x | StackOf(x) !in free ensures back.Of(x).stack == ctx.Of(x).stack {
      assert StackOf(x) !in free + {SidOf(st)};
      assert bound.Of(x).stack == ctx.Of(x).stack;
    }
    forall x | SidOf(x) !in free && x != st ensures SidKept(x, ctx, back) {
      assert SidOf(x) !in free + {SidOf(st)};
      assert SidKept(x, bound, after);
    }
  }

  /** What a caller is told: the session id and the call stack, after a first look. */
  ghost function SeenSid(st: Store, ctx: Context, w: World): Sid {
    Seen(st, Look(st, ctx, w).0)
  }

  ghost function SeenStack(st: Store, ctx: Context, w: World): seq<string> {
    Visible(Look(st, ctx, w).0.Of(st))
  }

  /** Well-nested use restores exactly the session id and the call stack seen on entry, on every
      exit path. (A local id that was not there before is made up from a uuid, so it is never
      the same one twice.) */
  lemma {:induction false} BlocksRestore(p: Prog, ctx: Context, w: World)
    requires WellNested(p, {})
    ensures var r := Exec(p, ctx, w);
      SeenSid(Globals, r.ctx, r.w) == SeenSid(Globals, ctx, w)
      && SeenStack(Globals, r.ctx, r.w) == SeenStack(Globals, ctx, w)
    ensures ctx.locals.sid.Some? ==>
      (var r := Exec(p, ctx, w);
      SeenSid(Locals, r.ctx, r.w) == SeenSid(Locals, ctx, w)
      && SeenStack(Locals, r.ctx, r.w) == SeenStack(Locals, ctx, w))
  {
    hide Exec, WellNested;
    ExecKeeps(p, ctx, w, {});
    var r := Exec(p, ctx, w);
    assert SidKept(Globals, ctx, r.ctx) && SidKept(Locals, ctx, r.ctx);
    hide Look, SidKept;
    LookContext(Globals, ctx, w);
    LookContext(Globals, r.ctx, r.w);
    LookContext(Locals, ctx, w);
    LookContext(Locals, r.ctx, r.w);
    assert forall st: Store :: StackOf(st) !in {};
  }

  /** Inside `stack_enter` the module is on top of the stack that was seen. */
  lemma {:induction false} EnteredStack(st: Store, mod: string, ctx: Context, w: World)
    ensures var r := Basic(Push(st, mod), ctx, w);
      SeenStack(st, r.ctx, r.w) == SeenStack(st, ctx, w) + [mod] && SeenSid(st, r.ctx, r.w) == SeenSid(st, ctx, w)
  {
    hide Look;
    LookContext(st, ctx, w);
    var r := Basic(Push(st, mod), ctx, w);
    LookContext(st, r.ctx, r.w);
  }

  // ---------------------------------------------------------------- no two places share an object

  /** Where a value can be stored: under a key of a session, or in the default attributes. */
  datatype Place = At(st: Store, sid: Sid, key: string) | Attr(st: Store, key: string)

  ghost function RefIn(d: Data, key: string): Option<Ref> {
    if key in d && d[key].Object? then Some(d[key].ref) else None
  }

  ghost function RefAt(w: World, p: Place): Option<Ref> {
    match p
    case At(st, sid, key) => if sid in w.Of(st) then RefIn(w.Of(st)[sid], key) else None
    case Attr(st, key) => RefIn(w.Attrs(st), key)
  }

  ghost predicate Unshared(w: World) {
    forall p, q :: RefAt(w, p).Some? && RefAt(w, p) == RefAt(w, q) ==> p == q
  }

  ghost predicate Stored(w: World) {
    && (forall p :: RefAt(w, p).Some? ==> RefAt(w, p).value in w.objects)
    && (forall r :: r in w.objects ==> r.made < w.made)
  }

  ghost predicate Separate(w: World) {
    Stored(w) && Unshared(w)
  }

  /** Every place holds what it held, or nothing, or, in one session, an object made just now. */
  ghost predicate Evolves(w: World, u: World, st: Store, sid: Sid) {
    && w.made <= u.made
    && (forall r :: r in w.objects ==> r in u.objects)
    && (forall r :: r in u.objects ==> r in w.objects || r.made == w.made < u.made)
    && (forall p :: RefAt(u, p) == None || RefAt(u, p) == RefAt(w, p) || NewAt(w, u, p, st, sid))
  }

  ghost predicate NewAt(w: World, u: World, p: Place, st: Store, sid: Sid) {
    p == At(st, sid, p.key) && RefAt(u, p) == Some(Ref(w.made, p.key)) && Ref(w.made, p.key) in u.objects
  }

  lemma {:induction false} EvolvedIsSeparate(w: World, u: World, st: Store, sid: Sid)
    requires Separate(w) && Evolves(w, u, st, sid)
    ensures Separate(u)
  {
    hide RefAt;
    forall p | RefAt(u, p).Some? ensures RefAt(u, p).value in u.objects {
      assert RefAt(u, p) == RefAt(w, p) || NewAt(w, u, p, st, sid);
    }
    forall p, q | RefAt(u, p).Some? && RefAt(u, p) == RefAt(u, q) ensures p == q {
      assert RefAt(u, p) == RefAt(w, p) || NewAt(w, u, p, st, sid);
      assert RefAt(u, q) == RefAt(w, q) || NewAt(w, u, q, st, sid);
    }
  }

  lemma {:induction false} NewSessionRefs(st: Store, sid: Sid, w: World, key: string)
    requires Stored(w) && sid !in w.Of(st)
    ensures var u := NewSession(st, sid, w); var p := At(st, sid, key);
      RefAt(u, p) == None || NewAt(w, u, p, st, sid)
  {
    NewSessionIs(st, sid, w);
    var u := NewSession(st, sid, w);
    if RefAt(u, At(st, sid, key)).Some? {
      assert RefAt(w, Attr(st, key)).Some?;
      assert Ref(w.made, key) in CopiedObjects(w.Attrs(st), w);
    }
  }

  lemma {:induction false} NewSessionElsewhere(st: Store, sid: Sid, w: World, p: Place)
    requires !(p.At? && p.st == st && p.sid == sid)
    ensures RefAt(NewSession(st, sid, w), p) == RefAt(w, p)
  {
    hide NewSession, DeepCopied, CopiedObjects;
    NewSessionIs(st, sid, w);
    var u := NewSession(st, sid, w);
    if p.At? {
      assert p.st == st || p.st == Other(st);
    }
  }

  lemma {:induction false} NewSessionObjects(st: Store, sid: Sid, w: World)
    ensures var u := NewSession(st, sid, w);
      forall r :: r in u.objects <==> r in w.objects || r in CopiedObjects(w.Attrs(st), w)
    ensures forall r :: r in CopiedObjects(w.Attrs(st), w) ==> r.made == w.made
  {
    hide DeepCopied;
    NewSessionIs(st, sid, w);
  }

  lemma {:induction false} NewSessionSeparate(st: Store, sid: Sid, w: World)
    requires Separate(w) && sid !in w.Of(st)
    ensures Separate(NewSession(st, sid, w))
  {
    hide NewSession, Unshared, NewAt, RefAt, CopiedObjects, DeepCopied;
    NewSessionIs(st, sid, w);
    var u := NewSession(st, sid, w);
    NewSessionObjects(st, sid, w);
    forall p: Place ensures RefAt(u, p) == None || RefAt(u, p) == RefAt(w, p) || NewAt(w, u, p, st, sid) {
      if p.At? && p.st == st && p.sid == sid {
        NewSessionRefs(st, sid, w, p.key);
      } else {
        NewSessionElsewhere(st, sid, w, p);
      }
    }
    EvolvedIsSeparate(w, u, st, sid);
  }

  lemma {:induction false} UuidsSeparate(w: World, n: nat)
    requires Separate(w)
    ensures Separate(w.(uuids := n))
  {
    var u := w.(uuids := n);
    assert forall p :: RefAt(u, p) == RefAt(w, p);
  }

  lemma {:induction false} DrawnSeparate(st: Store, ctx: Context, w: World)
    requires Separate(w)
    ensures Separate(Drawn(st, ctx, w)) && Drawn(st, ctx, w).Of(st) == w.Of(st)
  {
    hide Separate;
    UuidsSeparate(w, w.uuids + 1);
  }

  lemma {:induction false} LookSeparate(st: Store, ctx: Context, w: World)
    requires Separate(w)
    ensures Separate(Look(st, ctx, w).1)
  {
    hide NewSession, Separate, Drawn, IdOf;
    var sid, drawn := IdOf(st, ctx, w), Drawn(st, ctx, w);
    DrawnSeparate(st, ctx, w);
    if sid !in w.Of(st) {
      NewSessionSeparate(st, sid, drawn);
    }
  }

  lemma {:induction false} AssignedRefs(st: Store, sid: Sid, key: string, n: int, u: World, p: Place)
    requires sid in u.Of(st)
    ensures RefAt(Assigned(st, sid, key, n, u), p) == RefAt(u, p)
      || NewAt(u, Assigned(st, sid, key, n, u), p, st, sid)
  {
    hide Assigned;
    if p.At? {
      assert p.st == st || p.st == Other(st);
    }
  }

  lemma {:induction false} AssignedSeparate(st: Store, sid: Sid, key: string, n: int, u: World)
    requires Separate(u) && sid in u.Of(st)
    ensures Separate(Assigned(st, sid, key, n, u))
  {
    hide Assigned, RefAt, NewAt, Unshared;
    var v := Assigned(st, sid, key, n, u);
    forall p: Place ensures RefAt(v, p) == None || RefAt(v, p) == RefAt(u, p) || NewAt(u, v, p, st, sid) {
      AssignedRefs(st, sid, key, n, u, p);
    }
    EvolvedIsSeparate(u, v, st, sid);
  }

  lemma {:induction false} MutatedSeparate(r: Ref, n: int, u: World)
    requires Separate(u) && r in u.objects
    ensures Separate(Mutated(r, n, u))
  {
    var v := Mutated(r, n, u);
    assert forall p :: RefAt(v, p) == RefAt(u, p);
  }

  lemma {:induction false} DroppedSeparate(st: Store, sid: Sid, u: World)
    requires Separate(u)
    ensures Separate(Dropped(st, sid, u))
  {
    var v := Dropped(st, sid, u);
    assert forall p :: RefAt(v, p) == None || RefAt(v, p) == RefAt(u, p);
  }

  lemma {:induction false} BasicSeparate(p: Prog, ctx: Context, w: World)
    requires Separate(w)
    ensures Separate(Basic(p, ctx, w).w)
  {
    hide Look, Separate, Assigned, Mutated, Dropped;
    match p {
      case Assign(st, key, n) =>
        var (c, u) := Look(st, ctx, w);
        LookSeparate(st, ctx, w);
        AssignedSeparate(st, Seen(st, c), key, n, u);
      case Append(st, key, n) =>
        var (c, u) := Look(st, ctx, w);
        LookSeparate(st, ctx, w);
        LookSeparate(Globals, c, u);
        var (v, c1, u1) := GetItem(st, key, ctx, w);
        if v.Some? && v.value.Object? && v.value.ref in u1.objects {
          MutatedSeparate(v.value.ref, n, u1);
        }
      case Clear(st) =>
        var (c, u) := Look(st, ctx, w);
        LookSeparate(st, ctx, w);
        DroppedSeparate(st, Seen(st, c), u);
      case Push(st, _) => LookSeparate(st, ctx, w);
      case Pop(st) => LookSeparate(st, ctx, w);
      case _ =>
    }
  }

  /** Whatever is run, no object is shared between two sessions, two keys of a session, or a
      session and the default attributes it was copied from. */
  lemma {:induction false} ExecSeparate(p: Prog, ctx: Context, w: World)
    requires Separate(w)
    ensures Separate(Exec(p, ctx, w).w)
    decreases p, 0
  {
    hide Look, Basic, Separate;
    match p {
      case Then(a, b) =>
        ExecSeparate(a, ctx, w);
        var r := Exec(a, ctx, w);
        ExecSeparate(b, r.ctx, r.w);
      case Try(b) => ExecSeparate(b, ctx, w);
      case StackEnter(st, m, b) =>
        var pushed := Basic(Push(st, m), ctx, w);
        BasicSeparate(Push(st, m), ctx, w);
        ExecSeparate(b, pushed.ctx, pushed.w);
      case BindSid(st, t, b) =>
        LookSeparate(st, ctx, w);
        var (sid, c, u) := Resolve(st, t, ctx, w);
        ExecSeparate(b, SetSid(st, c, Some(sid)), u);
      case Scope(Some(t), b) =>
        LookSeparate(Locals, ctx, w);
        var (sid, c, u) := Resolve(Locals, t, ctx, w);
        ExecSeparate(b, SetSid(Locals, c, Some(sid)), u);
      case Scope(None, b) => OwnedSeparate(b, ctx, w);
      case Spawn(child, inherit, b) =>
        var (c, u) := Look(Globals, ctx, w);
        LookSeparate(Globals, ctx, w);
        if inherit {
          var (c1, u1) := Look(Locals, c, u);
          LookSeparate(Locals, c, u);
          ExecSeparate(b, ChildOf(c1, child), u1);
        } else {
          OwnedSeparate(b, ChildOf(c, child), u);
        }
      case _ => BasicSeparate(p, ctx, w);
    }
  }

  lemma {:induction false} OwnedSeparate(b: Prog, ctx: Context, w: World)
    requires Separate(w)
    ensures Separate(ExecOwned(b, ctx, w).w)
    decreases b, 1
  {
    hide Exec, Separate, Dropped;
    UuidsSeparate(w, w.uuids + 1);
    var inner, u := SetSid(Locals, ctx, Some(Uuid(w.uuids))), w.(uuids := w.uuids + 1);
    ExecSeparate(b, inner, u);
    DroppedSeparate(Locals, Uuid(w.uuids), Exec(b, inner, u).w);
  }

  // ---------------------------------------------------------------- sessions do not disturb each other

  /** The ids a program binds by name. */
  function Names(p: Prog, st: Store): set<Sid> {
    match p
    case Init(x, name) => if x == st then {Named(name)} else {}
    case Then(a, b) => Names(a, st) + Names(b, st)
    case Try(b) => Names(b, st)
    case StackEnter(_, _, b) => Names(b, st)
    case BindSid(x, t, b) => (if x == st && t.Given? then {Named(t.name)} else {}) + Names(b, st)
    case Scope(t, b) => (if st.Locals? && t.Some? && t.value.Given? then {Named(t.value.name)} else {}) + Names(b, st)
    case Spawn(_, _, b) => Names(b, st)
    case _ => {}
  }

  /** An id that no uuid will repeat. */
  predicate Known(sid: Sid, w: World) {
    sid.Uuid? ==> sid.n < w.uuids
  }

  /** The context does not look at this session, and will not make up its id. */
  predicate Away(st: Store, b: Sid, ctx: Context, w: World) {
    Known(b, w) && ctx.Of(st).sid != Some(b)
    && (ctx.Of(st).sid.None? && st.Globals? ==> b != OfThread(ctx.thread))
  }

  ghost predicate SameContents(d: Data, w: World, u: World) {
    forall key :: RefIn(d, key).Some? && RefIn(d, key).value in w.objects ==>
      RefIn(d, key).value in u.objects && u.objects[RefIn(d, key).value] == w.objects[RefIn(d, key).value]
  }

  /** The session is there or not as before, with the same data and the same object contents. */
  ghost predicate Unchanged(st: Store, b: Sid, w: World, u: World) {
    && (b in u.Of(st) <==> b in w.Of(st))
    && (b in w.Of(st) ==> u.Of(st)[b] == w.Of(st)[b] && SameContents(w.Of(st)[b], w, u))
  }

  lemma {:induction false} UnchangedTwice(st: Store, b: Sid, w: World, u: World, v: World)
    requires Unchanged(st, b, w, u) && Unchanged(st, b, u, v)
    ensures Unchanged(st, b, w, v)
  {
  }

  lemma {:induction false} NewSessionUnchanged(x: Store, sid: Sid, w: World, st: Store, b: Sid)
    requires Separate(w) && !(x == st && sid == b) && sid !in w.Of(x)
    ensures Unchanged(st, b, w, NewSession(x, sid, w))
  {
    hide NewSession, RefIn, CopiedObjects, DeepCopied;
    NewSessionIs(x, sid, w);
    var u := NewSession(x, sid, w);
    NewSessionObjects(x, sid, w);
    assert u.Of(Other(x)) == w.Of(Other(x)) && (st == x || st == Other(x));
  }

  lemma {:induction false} LookUnchanged(x: Store, ctx: Context, w: World, st: Store, b: Sid)
    requires Separate(w) && Away(st, b, ctx, w)
    ensures Unchanged(st, b, w, Look(x, ctx, w).1) && Away(st, b, Look(x, ctx, w).0, Look(x, ctx, w).1)
    ensures Look(x, ctx, w).0.thread == ctx.thread
  {
    hide NewSession, Unchanged, Separate, IdOf, Drawn, Away, SetSid;
    var sid, drawn := IdOf(x, ctx, w), Drawn(x, ctx, w);
    DrawnSeparate(x, ctx, w);
    DrawnUnchanged(x, ctx, w, st, b);
    LookAway(x, ctx, w, st, b);
    if sid !in w.Of(x) {
      NewSessionUnchanged(x, sid, drawn, st, b);
      UnchangedTwice(st, b, w, drawn, NewSession(x, sid, drawn));
    }
  }

  lemma {:induction false} LookAway(x: Store, ctx: Context, w: World, st: Store, b: Sid)
    requires Away(st, b, ctx, w)
    ensures Away(st, b, Look(x, ctx, w).0, Look(x, ctx, w).1) && Look(x, ctx, w).0.thread == ctx.thread
    ensures x == st ==> IdOf(x, ctx, w) != b
  {
    hide NewSession, DeepCopied, CopiedObjects;
    NewSessionIs(x, IdOf(x, ctx, w), Drawn(x, ctx, w));
  }

  lemma {:induction false} DrawnUnchanged(x: Store, ctx: Context, w: World, st: Store, b: Sid)
    ensures Unchanged(st, b, w, Drawn(x, ctx, w)) && Drawn(x, ctx, w).uuids >= w.uuids
  {
    hide Unchanged;
    UuidsUnchanged(st, b, w, w.uuids + 1);
    SameUnchanged(st, b, w);
  }

  lemma {:induction false} UuidsUnchanged(st: Store, b: Sid, w: World, n: nat)
    ensures Unchanged(st, b, w, w.(uuids := n))
  {
  }

  lemma {:induction false} AssignedUnchanged(x: Store, sid: Sid, key: string, n: int, w: World, st: Store, b: Sid)
    requires Separate(w) && !(x == st && sid == b) && sid in w.Of(x)
    ensures Unchanged(st, b, w, Assigned(x, sid, key, n, w))
  {
    hide Assigned, RefIn;
    var u := Assigned(x, sid, key, n, w);
    assert u.Of(Other(x)) == w.Of(Other(x)) && (st == x || st == Other(x));
  }

  /** An object found in another session is not in this one. */
  lemma {:induction false} MutatedUnchanged(x: Store, sid: Sid, key: string, n: int, w: World, st: Store, b: Sid)
    requires Separate(w) && !(x == st && sid == b)
    requires RefAt(w, At(x, sid, key)).Some?
    ensures RefAt(w, At(x, sid, key)).value in w.objects
    ensures Unchanged(st, b, w, Mutated(RefAt(w, At(x, sid, key)).value, n, w))
  {
    var r := RefAt(w, At(x, sid, key)).value;
    if b in w.Of(st) {
      forall k | RefIn(w.Of(st)[b], k).Some? ensures RefIn(w.Of(st)[b], k).value != r {
        assert RefAt(w, At(st, b, k)) == RefIn(w.Of(st)[b], k);
        assert At(st, b, k) != At(x, sid, key);
      }
    }
  }

  lemma {:induction false} DroppedUnchanged(x: Store, sid: Sid, w: World, st: Store, b: Sid)
    requires !(x == st && sid == b)
    ensures Unchanged(st, b, w, Dropped(x, sid, w))
  {
  }

  lemma {:induction false} AppendUnchanged(p: Prog, ctx: Context, w: World, st: Store, b: Sid)
    requires p.Append? && Separate(w) && Away(st, b, ctx, w)
    ensures var r := Basic(p, ctx, w); Unchanged(st, b, w, r.w) && Away(st, b, r.ctx, r.w) && r.ctx.thread == ctx.thread
  {
    hide Look, Unchanged, Separate, RefAt, Mutated;
    var (v, c2, u2) := GetItem(p.st, p.key, ctx, w);
    var (c, u) := Look(p.st, ctx, w);
    LookUnchanged(p.st, ctx, w, st, b);
    LookSeparate(p.st, ctx, w);
    LookUnchanged(Globals, c, u, st, b);
    LookSeparate(Globals, c, u);
    UnchangedTwice(st, b, w, u, Look(Globals, c, u).1);
    if v.Some? && v.value.Object? && v.value.ref in u2.objects {
      var x, sid := FoundAt(p.st, p.key, ctx, w);
      MutatedUnchanged(x, sid, p.key, p.n, u2, st, b);
      UnchangedTwice(st, b, w, u2, Mutated(v.value.ref, p.n, u2));
    }
  }

  /** Where `__getitem__` found an object: in the session seen in one of the stores. */
  lemma {:induction false} FoundAt(st: Store, key: string, ctx: Context, w: World) returns (x: Store, sid: Sid)
    requires GetItem(st, key, ctx, w).0.Some? && GetItem(st, key, ctx, w).0.value.Object?
    ensures var (v, c, u) := GetItem(st, key, ctx, w);
      c.Of(x).sid == Some(sid) && RefAt(u, At(x, sid, key)) == Some(v.value.ref)
  {
    hide Look;
    var (c, u) := Look(st, ctx, w);
    var d := u.Of(st)[Seen(st, c)];
    if key in d {
      x, sid := st, Seen(st, c);
    } else {
      var (c1, u1) := Look(Globals, c, u);
      x, sid := Globals, Seen(Globals, c1);
    }
  }

  lemma {:induction false} BasicUnchanged(p: Prog, ctx: Context, w: World, st: Store, b: Sid)
    requires Separate(w) && Away(st, b, ctx, w) && b !in Names(p, st)
    ensures var r := Basic(p, ctx, w); Unchanged(st, b, w, r.w) && Away(st, b, r.ctx, r.w) && r.ctx.thread == ctx.thread
  {
    hide Look, Unchanged, Separate, Assigned, Dropped;
    match p {
      case Assign(x, key, n) =>
        var (c, u) := Look(x, ctx, w);
        LookUnchanged(x, ctx, w, st, b);
        LookSeparate(x, ctx, w);
        AssignedUnchanged(x, Seen(x, c), key, n, u, st, b);
        UnchangedTwice(st, b, w, u, Assigned(x, Seen(x, c), key, n, u));
      case Append(_, _, _) => AppendUnchanged(p, ctx, w, st, b);
      case Clear(x) =>
        var (c, u) := Look(x, ctx, w);
        LookUnchanged(x, ctx, w, st, b);
        DroppedUnchanged(x, Seen(x, c), u, st, b);
        UnchangedTwice(st, b, w, u, Dropped(x, Seen(x, c), u));
      case Push(x, _) => LookUnchanged(x, ctx, w, st, b);
      case Pop(x) => LookUnchanged(x, ctx, w, st, b);
      case _ => SameUnchanged(st, b, w);
    }
  }

  lemma {:induction false} SameUnchanged(st: Store, b: Sid, w: World)
    ensures Unchanged(st, b, w, w)
  {
  }

  /** The state after a run, as far as one session is concerned. */
  ghost predicate Left(st: Store, b: Sid, ctx: Context, w: World, r: Result) {
    Unchanged(st, b, w, r.w) && Away(st, b, r.ctx, r.w) && r.ctx.thread == ctx.thread
  }

  lemma {:induction false} ResolveUnchanged(x: Store, t: Target, ctx: Context, w: World, st: Store, b: Sid)
    requires Separate(w) && Away(st, b, ctx, w) && !(x == st && t.Given? && b == Named(t.name))
    ensures var (sid, c, u) := Resolve(x, t, ctx, w);
      Unchanged(st, b, w, u) && Away(st, b, c, u) && c.thread == ctx.thread && Separate(u) && Away(st, b, SetSid(x, c, Some(sid)), u)
  {
    hide Look, Unchanged, Separate;
    LookUnchanged(x, ctx, w, st, b);
    LookSeparate(x, ctx, w);
    SameUnchanged(st, b, w);
  }

  /** Setting the session id back leaves the session left alone. */
  lemma {:induction false} BackAway(x: Store, st: Store, b: Sid, c: Context, u: World, after: Context, v: World)
    requires Away(st, b, c, u) && Away(st, b, after, v) && after.thread == c.thread
    ensures Away(st, b, SetSid(x, after, c.Of(x).sid), v)
  {
  }

  lemma {:induction false} BindUnchanged(x: Store, t: Target, body: Prog, ctx: Context, w: World, st: Store, b: Sid)
    requires Separate(w) && Away(st, b, ctx, w) && !(x == st && t.Given? && b == Named(t.name)) && b !in Names(body, st)
    ensures var (sid, c, u) := Resolve(x, t, ctx, w); var r := Exec(body, SetSid(x, c, Some(sid)), u);
      Left(st, b, ctx, w, r.(ctx := SetSid(x, r.ctx, c.Of(x).sid)))
    decreases body, 1
  {
    hide Exec, Unchanged, Away, Separate, Resolve;
    var (sid, c, u) := Resolve(x, t, ctx, w);
    ResolveUnchanged(x, t, ctx, w, st, b);
    var inner := SetSid(x, c, Some(sid));
    ExecUnchanged(body, inner, u, st, b);
    var r := Exec(body, inner, u);
    UnchangedTwice(st, b, w, u, r.w);
    BackAway(x, st, b, c, u, r.ctx, r.w);
  }

  /** A run changes no session that its context does not look at and that it does not bind by
      name, in either store: neither the table nor the contents of the objects in it. */
  lemma {:induction false} ExecUnchanged(p: Prog, ctx: Context, w: World, st: Store, b: Sid)
    requires Separate(w) && Away(st, b, ctx, w) && b !in Names(p, st)
    ensures Left(st, b, ctx, w, Exec(p, ctx, w))
    decreases p, 0
  {
    hide Look, Basic, Unchanged, Separate;
    match p {
      case Then(a, c) =>
        ExecUnchanged(a, ctx, w, st, b);
        ExecSeparate(a, ctx, w);
        var r := Exec(a, ctx, w);
        if r.outcome.Done? {
          ExecUnchanged(c, r.ctx, r.w, st, b);
          UnchangedTwice(st, b, w, r.w, Exec(c, r.ctx, r.w).w);
        }
      case Try(c) => ExecUnchanged(c, ctx, w, st, b);
      case StackEnter(x, m, c) =>
        var pushed := Basic(Push(x, m), ctx, w);
        BasicUnchanged(Push(x, m), ctx, w, st, b);
        BasicSeparate(Push(x, m), ctx, w);
        ExecUnchanged(c, pushed.ctx, pushed.w, st, b);
        UnchangedTwice(st, b, w, pushed.w, Exec(c, pushed.ctx, pushed.w).w);
      case BindSid(x, t, c) => BindUnchanged(x, t, c, ctx, w, st, b);
      case Scope(Some(t), c) => BindUnchanged(Locals, t, c, ctx, w, st, b);
      case Scope(None, c) => OwnedUnchanged(c, ctx, w, st, b);
      case Spawn(child, inherit, c) => SpawnUnchanged(child, inherit, c, ctx, w, st, b);
      case _ => BasicUnchanged(p, ctx, w, st, b);
    }
  }

  lemma {:induction false} SpawnUnchanged(child: nat, inherit: bool, body: Prog, ctx: Context, w: World, st: Store, b: Sid)
    requires Separate(w) && Away(st, b, ctx, w) && b !in Names(body, st)
    ensures Left(st, b, ctx, w, Exec(Spawn(child, inherit, body), ctx, w))
    decreases body, 2
  {
    hide Look, Basic, Unchanged, Separate;
    var (c, u) := Look(Globals, ctx, w);
    LookUnchanged(Globals, ctx, w, st, b);
    LookSeparate(Globals, ctx, w);
    if inherit {
      var (c1, u1) := Look(Locals, c, u);
      LookUnchanged(Locals, c, u, st, b);
      LookSeparate(Locals, c, u);
      LookContext(Locals, c, u);
      ExecUnchanged(body, ChildOf(c1, child), u1, st, b);
      UnchangedTwice(st, b, w, u, u1);
      UnchangedTwice(st, b, w, u1, Exec(body, ChildOf(c1, child), u1).w);
    } else {
      OwnedUnchanged(body, ChildOf(c, child), u, st, b);
      UnchangedTwice(st, b, w, u, ExecOwned(body, ChildOf(c, child), u).w);
    }
  }

  /** An owned scope is away from every local session there was. */
  lemma {:induction false} OwnedUnchanged(body: Prog, ctx: Context, w: World, st: Store, b: Sid)
    requires Separate(w) && Known(b, w) && b !in Names(body, st) && (st.Globals? ==> Away(st, b, ctx, w))
    ensures var r := ExecOwned(body, ctx, w);
      Unchanged(st, b, w, r.w) && Known(b, r.w) && r.ctx.thread == ctx.thread
      && r.ctx.locals.sid == ctx.locals.sid && (st.Globals? ==> Away(st, b, r.ctx, r.w))
    decreases body, 1
  {
    hide Exec, Unchanged, Separate, Dropped;
    var sid := Uuid(w.uuids);
    var inner, u := SetSid(Locals, ctx, Some(sid)), w.(uuids := w.uuids + 1);
    UuidsSeparate(w, w.uuids + 1);
    UuidsUnchanged(st, b, w, w.uuids + 1);
    ExecUnchanged(body, inner, u, st, b);
    var r := Exec(body, inner, u);
    DroppedUnchanged(Locals, sid, r.w, st, b);
    UnchangedTwice(st, b, w, u, r.w);
    UnchangedTwice(st, b, w, r.w, Dropped(Locals, sid, r.w));
  }

  // ---------------------------------------------------------------- scopes leave nothing

  /** Local data appear only under ids the run could see: the one it starts with and the ones it
      binds by name. Everything under a scope's own id is gone. */
  lemma {:induction false} LocalKeys(p: Prog, ctx: Context, w: World, ids: set<Sid>)
    requires ctx.locals.sid.Some? && ctx.locals.sid.value in ids && Names(p, Locals) <= ids
    ensures var r := Exec(p, ctx, w);
      r.w.locals.Keys <= w.locals.Keys + ids && r.ctx.locals.sid.Some? && r.ctx.locals.sid.value in ids
    decreases p, 0
  {
    hide Look, Basic;
    match p {
      case Then(a, c) =>
        LocalKeys(a, ctx, w, ids);
        var r := Exec(a, ctx, w);
        LocalKeys(c, r.ctx, r.w, ids);
      case Try(c) => LocalKeys(c, ctx, w, ids);
      case StackEnter(x, m, c) =>
        var pushed := Basic(Push(x, m), ctx, w);
        BasicKeys(Push(x, m), ctx, w, ids);
        LocalKeys(c, pushed.ctx, pushed.w, ids);
      case BindSid(x, t, c) => BindKeys(x, t, c, ctx, w, ids);
      case Scope(Some(t), c) => BindKeys(Locals, t, c, ctx, w, ids);
      case Scope(None, c) => OwnedKeys(c, ctx, w, ids);
      case Spawn(child, inherit, c) =>
        var (c0, u) := Look(Globals, ctx, w);
        LookKeys(Globals, ctx, w, ids);
        if inherit {
          var (c1, u1) := Look(Locals, c0, u);
          LookKeys(Locals, c0, u, ids);
          LocalKeys(c, ChildOf(c1, child), u1, ids);
        } else {
          OwnedKeys(c, ChildOf(c0, child), u, ids);
        }
      case _ => BasicKeys(p, ctx, w, ids);
    }
  }

  lemma {:induction false} BindKeys(x: Store, t: Target, body: Prog, ctx: Context, w: World, ids: set<Sid>)
    requires ctx.locals.sid.Some? && ctx.locals.sid.value in ids && Names(body, Locals) <= ids
    requires x.Locals? && t.Given? ==> Named(t.name) in ids
    ensures var (sid, c, u) := Resolve(x, t, ctx, w); var r := Exec(body, SetSid(x, c, Some(sid)), u);
      var back := SetSid(x, r.ctx, c.Of(x).sid);
      r.w.locals.Keys <= w.locals.Keys + ids && back.locals.sid.Some? && back.locals.sid.value in ids
    decreases body, 1
  {
    hide Look, Exec;
    LookKeys(x, ctx, w, ids);
    var (sid, c, u) := Resolve(x, t, ctx, w);
    LocalKeys(body, SetSid(x, c, Some(sid)), u, ids);
  }

  lemma {:induction false} LookKeys(x: Store, ctx: Context, w: World, ids: set<Sid>)
    requires ctx.locals.sid.Some? && ctx.locals.sid.value in ids
    ensures var (c, u) := Look(x, ctx, w); u.locals.Keys <= w.locals.Keys + ids && c.locals.sid == ctx.locals.sid
  {
    hide CopiedObjects, DeepCopied;
  }

  lemma {:induction false} BasicKeys(p: Prog, ctx: Context, w: World, ids: set<Sid>)
    requires ctx.locals.sid.Some? && ctx.locals.sid.value in ids && Names(p, Locals) <= ids
    ensures var r := Basic(p, ctx, w);
      r.w.locals.Keys <= w.locals.Keys + ids && r.ctx.locals.sid.Some? && r.ctx.locals.sid.value in ids
  {
    hide Look;
    if p.Assign? || p.Append? || p.Clear? || p.Push? || p.Pop? {
      var (c, u) := Look(p.st, ctx, w);
      LookKeys(p.st, ctx, w, ids);
      LookKeys(Globals, c, u, ids);
    }
  }

  /** An owned scope leaves no local data but under ids it binds by name. */
  lemma {:induction false} OwnedKeys(body: Prog, ctx: Context, w: World, ids: set<Sid>)
    requires Names(body, Locals) <= ids
    ensures var r := ExecOwned(body, ctx, w);
      r.w.locals.Keys <= w.locals.Keys + ids && Uuid(w.uuids) !in r.w.locals && r.ctx.locals.sid == ctx.locals.sid
    decreases body, 1
  {
    hide Exec;
    var inner, u := SetSid(Locals, ctx, Some(Uuid(w.uuids))), w.(uuids := w.uuids + 1);
    LocalKeys(body, inner, u, ids + {Uuid(w.uuids)});
  }

  /** A thread with an isolated local scope leaves every local session that its code does not bind
      by name exactly as it was, and adds none but those, whatever it runs and raises. */
  lemma {:induction false} IsolatedThread(child: nat, body: Prog, ctx: Context, w: World)
    requires Separate(w) && forall s :: s in w.locals ==> Known(s, w)
    ensures var r := Exec(Spawn(child, false, body), ctx, w);
      r.ctx.locals == ctx.locals && r.w.locals.Keys <= w.locals.Keys + Names(body, Locals)
    ensures var r := Exec(Spawn(child, false, body), ctx, w);
      forall s :: s in w.locals && s !in Names(body, Locals) ==>
        s in r.w.locals && r.w.locals[s] == w.locals[s] && SameContents(w.locals[s], w, r.w)
  {
    hide Separate, Look, ExecOwned, Unchanged, Names;
    var (c, u) := Look(Globals, ctx, w);
    LookSeparate(Globals, ctx, w);
    LookContext(Globals, ctx, w);
    LookLocals(ctx, w);
    OwnedKeys(body, ChildOf(c, child), u, Names(body, Locals));
    var r := ExecOwned(body, ChildOf(c, child), u);
    forall s | s in w.locals && s !in Names(body, Locals)
      ensures s in r.w.locals && r.w.locals[s] == w.locals[s] && SameContents(w.locals[s], w, r.w)
    {
      GlobalLookUnchanged(ctx, w, s);
      OwnedUnchanged(body, ChildOf(c, child), u, Locals, s);
      UnchangedTwice(Locals, s, w, u, r.w);
      UnchangedMeans(s, w, r.w);
    }
  }

  lemma {:induction false} UnchangedMeans(s: Sid, w: World, u: World)
    requires Unchanged(Locals, s, w, u) && s in w.locals
    ensures s in u.locals && u.locals[s] == w.locals[s] && SameContents(w.locals[s], w, u)
  {
  }

  lemma {:induction false} LookLocals(ctx: Context, w: World)
    ensures Look(Globals, ctx, w).1.locals == w.locals && Look(Globals, ctx, w).1.uuids == w.uuids
  {
    hide CopiedObjects, DeepCopied;
  }

  lemma {:induction false} GlobalLookUnchanged(ctx: Context, w: World, s: Sid)
    requires Separate(w)
    ensures Unchanged(Locals, s, w, Look(Globals, ctx, w).1)
  {
    hide NewSession, Unchanged;
    var sid := Look(Globals, ctx, w).0.globals.sid.value;
    SameUnchanged(Locals, s, w);
    if sid !in w.globals {
      NewSessionUnchanged(Globals, sid, w, Locals, s);
    }
  }

  /** What a thread starts with: its starter's session and call stack, and, when it inherits,
      also the local ones. */
  lemma {:induction false} ChildSees(ctx: Context, w: World, child: nat)
    ensures var (c, u) := Look(Globals, ctx, w);
      SeenSid(Globals, ChildOf(c, child), u) == SeenSid(Globals, ctx, w)
      && SeenStack(Globals, ChildOf(c, child), u) == SeenStack(Globals, ctx, w)
      && SeenSid(Locals, ChildOf(Look(Locals, c, u).0, child), Look(Locals, c, u).1) == SeenSid(Locals, c, u)
      && SeenStack(Locals, ChildOf(Look(Locals, c, u).0, child), Look(Locals, c, u).1) == SeenStack(Locals, c, u)
  {
    hide Look;
    var (c, u) := Look(Globals, ctx, w);
    var (c1, u1) := Look(Locals, c, u);
    LookContext(Globals, ctx, w);
    LookContext(Globals, ChildOf(c, child), u);
    LookContext(Locals, c, u);
    LookContext(Locals, ChildOf(c1, child), u1);
  }

  // ---------------------------------------------------------------- what clients read

  /** The contents of the object found under a key, if one is. */
  ghost function Reads(st: Store, key: string, ctx: Context, w: World): Option<seq<int>> {
    var (v, c, u) := GetItem(st, key, ctx, w);
    if v.Some? && v.value.Object? && v.value.ref in u.objects then Some(u.objects[v.value.ref]) else None
  }

  /** A session in view that has its data. */
  predicate InView(st: Store, sid: Sid, ctx: Context, w: World) {
    ctx.Of(st).sid == Some(sid) && sid in w.Of(st)
  }

  lemma {:induction false} LookInView(st: Store, sid: Sid, ctx: Context, w: World)
    requires InView(st, sid, ctx, w)
    ensures Look(st, ctx, w) == (ctx, w)
  {
  }

  /** A key of the session in view is found there; a key it lacks is not found in `globals`, and in
      `locals` it is what `globals` has. */
  lemma {:induction false} FoundInSession(st: Store, sid: Sid, key: string, ctx: Context, w: World)
    requires InView(st, sid, ctx, w)
    ensures key in w.Of(st)[sid] ==> GetItem(st, key, ctx, w) == (Some(w.Of(st)[sid][key]), ctx, w)
    ensures key !in w.Of(st)[sid] && st.Globals? ==> GetItem(st, key, ctx, w) == (None, ctx, w)
    ensures key !in w.Of(st)[sid] && st.Locals? ==> GetItem(st, key, ctx, w) == GetItem(Globals, key, ctx, w)
  {
    hide Look;
    LookInView(st, sid, ctx, w);
  }

  /** A new session holds the default attributes: the same plain values, and objects with the same
      contents. */
  lemma {:induction false} NewSessionHolds(st: Store, sid: Sid, key: string, w: World)
    requires Stored(w)
    ensures var u, attrs := NewSession(st, sid, w), if st.Globals? then w.globalAttrs else w.localAttrs;
      var d := if st.Globals? then u.globals[sid] else u.locals[sid];
      (key in d <==> key in attrs) && (key in attrs && attrs[key].Atom? ==> d[key] == attrs[key])
      && (key in attrs && attrs[key].Object? ==>
            d[key].Object? && d[key].ref in u.objects && attrs[key].ref in w.objects
            && u.objects[d[key].ref] == w.objects[attrs[key].ref])
  {
    hide NewSession;
    NewSessionIs(st, sid, w);
    if key in w.Attrs(st) && w.Attrs(st)[key].Object? {
      assert RefAt(w, Attr(st, key)).Some?;
      assert Ref(w.made, key) in CopiedObjects(w.Attrs(st), w);
    }
  }

  /** What is stored is read back, and no other key changes. */
  lemma {:induction false} AssignThenRead(st: Store, sid: Sid, key: string, n: int, ctx: Context, w: World)
    requires InView(st, sid, ctx, w)
    ensures var r := Basic(Assign(st, key, n), ctx, w);
      r.outcome == Done && r.ctx == ctx && InView(st, sid, r.ctx, r.w)
      && key in r.w.Of(st)[sid] && Reads(st, key, r.ctx, r.w) == Some([n])
      && forall k :: k != key && k in w.Of(st)[sid] ==>
           k in r.w.Of(st)[sid] && r.w.Of(st)[sid][k] == w.Of(st)[sid][k]
  {
    hide Look, Assigned;
    LookInView(st, sid, ctx, w);
    var r := Basic(Assign(st, key, n), ctx, w);
    assert InView(st, sid, r.ctx, r.w);
    FoundInSession(st, sid, key, r.ctx, r.w);
  }

  /** A change in place is read back after what was there; a missing key is a KeyError. */
  lemma {:induction false} AppendThenRead(st: Store, sid: Sid, key: string, n: int, ctx: Context, w: World)
    requires InView(st, sid, ctx, w)
    ensures key in w.Of(st)[sid] && Reads(st, key, ctx, w).Some? ==>
      Basic(Append(st, key, n), ctx, w).outcome == Done
      && Reads(st, key, ctx, Basic(Append(st, key, n), ctx, w).w) == Some(Reads(st, key, ctx, w).value + [n])
    ensures key !in w.Of(st)[sid] && st.Globals? ==>
      Basic(Append(st, key, n), ctx, w).outcome == Raised(KeyError) && Basic(Append(st, key, n), ctx, w).w == w
  {
    hide Look, GetItem;
    FoundInSession(st, sid, key, ctx, w);
    if key in w.Of(st)[sid] && Reads(st, key, ctx, w).Some? {
      var u := Basic(Append(st, key, n), ctx, w).w;
      assert u.Of(st) == w.Of(st) && InView(st, sid, ctx, u);
      FoundInSession(st, sid, key, ctx, u);
    }
  }

  /** After `clear` the session has no data, so its next look makes them anew. */
  lemma {:induction false} ClearForgets(st: Store, sid: Sid, ctx: Context, w: World)
    requires InView(st, sid, ctx, w)
    ensures var r := Basic(Clear(st), ctx, w);
      r.ctx == ctx && r.w.Of(st) == w.Of(st) - {sid} && r.w.Of(Other(st)) == w.Of(Other(st))
      && Look(st, r.ctx, r.w).1 == NewSession(st, sid, r.w)
  {
    LookInView(st, sid, ctx, w);
  }

  // ---------------------------------------------------------------- call stacks by session

  /** A stack pushed in one session is not seen in another. */
  lemma {:induction false} OtherSessionHidesStack(st: Store, sid: Sid, ctx: Context, w: World)
    requires ctx.Of(st).stack.sid != Some(sid)
    ensures SeenStack(st, SetSid(st, ctx, Some(sid)), w) == []
  {
    LookContext(st, SetSid(st, ctx, Some(sid)), w);
    hide Look;
  }

  /** Popping takes off what was pushed; with nothing to see it is an IndexError. */
  lemma {:induction false} PushThenPop(st: Store, sid: Sid, mod: string, ctx: Context, w: World)
    requires InView(st, sid, ctx, w)
    ensures var pushed := Basic(Push(st, mod), ctx, w); var popped := Basic(Pop(st), pushed.ctx, pushed.w);
      SeenStack(st, pushed.ctx, pushed.w) == SeenStack(st, ctx, w) + [mod]
      && popped.outcome == Done && SeenStack(st, popped.ctx, popped.w) == SeenStack(st, ctx, w)
    ensures SeenStack(st, ctx, w) == [] ==> Basic(Pop(st), ctx, w).outcome == Raised(IndexError)
  {
    hide Look;
    LookInView(st, sid, ctx, w);
    var pushed := Basic(Push(st, mod), ctx, w);
    LookInView(st, sid, pushed.ctx, pushed.w);
    var popped := Basic(Pop(st), pushed.ctx, pushed.w);
    LookInView(st, sid, popped.ctx, popped.w);
    assert (Visible(ctx.Of(st)) + [mod])[..|Visible(ctx.Of(st))|] == Visible(ctx.Of(st));
  }

  // ---------------------------------------------------------------- what leaves a block

  /** Whatever it meets, this program ends without an exception. */
  predicate Calm(p: Prog) {
    match p
    case Raise(_) => false
    case Append(_, _, _) => false
    case Pop(_) => false
    case Then(a, b) => Calm(a) && Calm(b)
    case StackEnter(_, _, b) => Calm(b)
    case BindSid(_, _, b) => Calm(b)
    case Scope(_, b) => Calm(b)
    case Spawn(_, _, b) => Calm(b)
    case _ => true
  }

  /** This program raises the exception, from within any blocks and threads. */
  predicate Raises(p: Prog, e: Exc) {
    match p
    case Raise(x) => x == e
    case Then(a, b) => Raises(a, e) || (Calm(a) && Raises(b, e))
    case StackEnter(_, _, b) => Raises(b, e)
    case BindSid(_, _, b) => Raises(b, e)
    case Scope(_, b) => Raises(b, e)
    case Spawn(_, _, b) => Raises(b, e)
    case _ => false
  }

  /** Blocks and joined threads let exceptions through and make none of their own. */
  lemma {:induction false} BlocksLetThrough(p: Prog, e: Exc, ctx: Context, w: World)
    ensures Calm(p) ==> Exec(p, ctx, w).outcome == Done
    ensures Raises(p, e) ==> Exec(p, ctx, w).outcome == Raised(e)
    decreases p, 0
  {
    hide Look, SetSid, SetStack, Assigned, Dropped, Mutated, GetItem;
    match p {
      case Then(a, b) =>
        BlocksLetThrough(a, e, ctx, w);
        BlocksLetThrough(b, e, Exec(a, ctx, w).ctx, Exec(a, ctx, w).w);
      case StackEnter(st, m, b) =>
        BlocksLetThrough(b, e, Basic(Push(st, m), ctx, w).ctx, Basic(Push(st, m), ctx, w).w);
      case BindSid(st, t, b) =>
        var (sid, c, u) := Resolve(st, t, ctx, w);
        BlocksLetThrough(b, e, SetSid(st, c, Some(sid)), u);
      case Scope(Some(t), b) =>
        var (sid, c, u) := Resolve(Locals, t, ctx, w);
        BlocksLetThrough(b, e, SetSid(Locals, c, Some(sid)), u);
      case Scope(None, b) => OwnedLetsThrough(b, e, ctx, w);
      case Spawn(child, inherit, b) =>
        var (c, u) := Look(Globals, ctx, w);
        var (c1, u1) := Look(Locals, c, u);
        BlocksLetThrough(b, e, ChildOf(c1, child), u1);
        OwnedLetsThrough(b, e, ChildOf(c, child), u);
      case _ =>
    }
  }

  lemma {:induction false} OwnedLetsThrough(b: Prog, e: Exc, ctx: Context, w: World)
    ensures Calm(b) ==> ExecOwned(b, ctx, w).outcome == Done
    ensures Raises(b, e) ==> ExecOwned(b, ctx, w).outcome == Raised(e)
    decreases b, 1
  {
    hide Exec;
    BlocksLetThrough(b, e, SetSid(Locals, ctx, Some(Uuid(w.uuids))), w.(uuids := w.uuids + 1));
  }

  /** What is stored is read back from whatever context and tables it was stored in. */
  lemma {:induction false} AssignAnywhere(key: string, n: int, ctx: Context, w: World)
    ensures var r := Basic(Assign(Locals, key, n), ctx, w); var sid := IdOf(Locals, ctx, w);
      r.outcome == Done && InView(Locals, sid, r.ctx, r.w) && r.ctx == SetSid(Locals, ctx, Some(sid))
      && key in r.w.locals[sid] && Reads(Locals, key, r.ctx, r.w) == Some([n])
  {
    var (c, u) := Look(Locals, ctx, w);
    assert InView(Locals, IdOf(Locals, ctx, w), c, u);
    hide Look, Reads, Assigned;
    LookInView(Locals, IdOf(Locals, ctx, w), c, u);
    AssignThenRead(Locals, IdOf(Locals, ctx, w), key, n, c, u);
  }

  /** What is stored inside a scope given by name stays under that name. */
  lemma {:induction false} NamedScopeKeeps(key: string, n: int, name: string, ctx: Context, w: World)
    ensures var r := Exec(Scope(Some(Given(name)), Assign(Locals, key, n)), ctx, w);
      r.outcome == Done && Reads(Locals, key, SetSid(Locals, r.ctx, Some(Named(name))), r.w) == Some([n])
  {
    hide Reads, Look, Basic, Assigned;
    AssignAnywhere(key, n, SetSid(Locals, ctx, Some(Named(name))), w);
  }

  /** What a thread that inherits stores, its starter reads. */
  lemma {:induction false} InheritedIsShared(key: string, n: int, child: nat, ctx: Context, w: World)
    ensures var r := Exec(Spawn(child, true, Assign(Locals, key, n)), ctx, w);
      r.outcome == Done && Reads(Locals, key, r.ctx, r.w) == Some([n])
  {
    hide Reads, Look, Basic, Assigned;
    var (c, u) := Look(Globals, ctx, w);
    var (c1, u1) := Look(Locals, c, u);
    var inherited := ChildOf(c1, child);
    AssignAnywhere(key, n, inherited, u1);
    var r := Basic(Assign(Locals, key, n), inherited, u1);
    assert Exec(Assign(Locals, key, n), inherited, u1) == r;
    SameReads(key, IdOf(Locals, inherited, u1), r.ctx, c1, r.w);
  }

  /** What a session holds does not depend on who looks. */
  lemma {:induction false} SameReads(key: string, sid: Sid, a: Context, b: Context, w: World)
    requires InView(Locals, sid, a, w) && InView(Locals, sid, b, w) && key in w.locals[sid]
    ensures Reads(Locals, key, a, w) == Reads(Locals, key, b, w)
  {
    FoundInSession(Locals, sid, key, a, w);
    FoundInSession(Locals, sid, key, b, w);
  }
}
