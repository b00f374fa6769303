/** The create / adopt / delete protocol of the generic reconciler
    (internal/controller/reconciler/reconciler.go) for one custom resource and the one
    Snowflake object it names, as a state machine over its persisted writes.

    Every write to the API server and every Snowflake statement is one step, so a crash
    between any two of them is a step too; only `Resource` and `Object` survive it. */
module ReconcileProtocol {

  // ---------------------------------------------------------------- state

  /** The user-controlled switches the reconciler branches on. */
  datatype Policy = Policy(paused: bool, observeOnly: bool, adopt: bool, orphan: bool, abandon: bool)

  /** What the API server stores of the custom resource.  `initiated` is the
      creation-initiated annotation, `observed` is `status.observedGeneration > 0`. */
  datatype Resource = Resource(deleting: bool, finalizer: bool, initiated: bool, observed: bool, policy: Policy)

  /** Who issued the CREATE that brought the Snowflake object into being. */
  datatype Maker = Self | Other

  datatype Object = Absent | Live(maker: Maker)

  /** What the worker does next.  `mem` is the copy of the resource read at the start. */
  datatype Phase =
    | Idle
    | Fetched(mem: Resource)
    | AddingFinalizer
    | Dropping
    | Releasing
    | Observing(mem: Resource)
    | Updating                       // the object is known; ALTER or CREATE OR ALTER may be due
    | Marking                        // about to patch the creation-initiated annotation
    | Creating                       // about to issue CREATE
    | Verifying                      // about to observe after CREATE
    | Clearing(commitNext: bool)     // about to patch the annotation away
    | Committing(clearNext: bool)    // about to patch status (observedGeneration)

  datatype State = State(res: Resource, gone: bool, obj: Object, phase: Phase)

  /** The order of the last two patches of a create: the code removes the annotation
      first, docs/architecture.md:163 says it is removed after the status is committed. */
  datatype Order = AnnotationFirst | StatusFirst

  /** How an operation of the worker ends.  `Ambiguous` is a DROP answered with
      "does not exist or not authorized", which the reconciler takes for success. */
  datatype Outcome = Ok | Fails | Ambiguous

  datatype Action =
    | Proceed(outcome: Outcome)
    | CreateOrAlter                  // the update issues CREATE OR ALTER, which succeeds
    | HashFails                      // finalizeSpec fails: status is patched, the rest is skipped
    | Crash                          // the process dies, or an operation took effect but returned an error
    | ExternalCreate
    | ExternalDrop
    | UserDelete
    | SetPolicy(policy: Policy)

  predicate Init(s: State) {
    && s.phase.Idle? && !s.gone && s.obj != Live(Self)
    && !s.res.deleting && !s.res.finalizer && !s.res.initiated && !s.res.observed
  }

  // ---------------------------------------------------------------- steps

  /** The first of the two patches that end a create or a post-crash recovery. */
  function FirstPatch(order: Order): (p: Phase) {
    if order.AnnotationFirst? then Clearing(true) else Committing(true)
  }

  /** Dispatch after the read: pause, provider resolution, deletion, finalizer. */
  function Dispatch(mem: Resource, outcome: Outcome): (p: Phase) {
    if mem.policy.paused then Idle
    else if mem.deleting then
      if !mem.finalizer then Idle
      else if !outcome.Ok? then Releasing
      else if mem.policy.observeOnly || mem.policy.orphan || mem.policy.abandon then Releasing
      else Dropping
    else if !outcome.Ok? then Idle
    else if !mem.finalizer then AddingFinalizer
    else Observing(mem)
  }

  /** The branch taken on an observation. */
  function Branch(order: Order, mem: Resource, found: bool): (p: Phase) {
    if mem.policy.observeOnly then (if found then Committing(false) else Idle)
    else if !found then (if mem.initiated then Creating else Marking)
    else if mem.observed then Updating
    else if mem.initiated then FirstPatch(order)
    else if mem.policy.adopt then Clearing(true)
    else Idle
  }

  /** One operation of the worker. */
  function Work(order: Order, s: State, outcome: Outcome): (t: State) {
    match s.phase
    case Idle => if s.gone then s else s.(phase := Fetched(s.res))
    case Fetched(mem) => s.(phase := Dispatch(mem, outcome))
    case Dropping =>
      if outcome.Fails? then s.(phase := Idle)
      else if outcome.Ambiguous? then s.(phase := Releasing)
      else s.(obj := Absent, phase := Releasing)
    case Observing(mem) =>
      s.(phase := if outcome.Ok? then Branch(order, mem, s.obj.Live?) else Idle)
    case Creating =>
      if !outcome.Ok? then s.(phase := Idle)
      else s.(obj := if s.obj.Absent? then Live(Self) else s.obj, phase := Verifying)
    case Updating => s.(phase := if outcome.Ok? then Committing(false) else Idle)
    case Verifying =>
      s.(phase := if outcome.Ok? && s.obj.Live? then FirstPatch(order) else Idle)
    case _ => if !outcome.Ok? || s.gone then s.(phase := Idle) else Patch(s)
  }

  /** A successful write to the API server. */
  function Patch(s: State): (t: State) {
    match s.phase
    case AddingFinalizer => s.(res := s.res.(finalizer := true), phase := Idle)
    case Releasing => s.(res := s.res.(finalizer := false), gone := s.res.deleting, phase := Idle)
    case Marking => s.(res := s.res.(initiated := true), phase := Creating)
    case Clearing(next) =>
      s.(res := s.res.(initiated := false), phase := if next then Committing(false) else Idle)
    case Committing(next) =>
      s.(res := s.res.(observed := true), phase := if next then Clearing(false) else Idle)
    case _ => s
  }

  function Step(order: Order, s: State, a: Action): (t: State) {
    match a
    case Proceed(outcome) => Work(order, s, outcome)
    case CreateOrAlter =>
      if s.phase.Updating?
      then s.(obj := if s.obj.Absent? then Live(Self) else s.obj, phase := Committing(false)) else s
    case HashFails =>
      if (s.phase == Clearing(true) || s.phase.Committing?) && !s.gone
      then s.(res := s.res.(observed := true), phase := Idle) else s
    case Crash => s.(phase := Idle)
    case ExternalCreate => if s.obj.Absent? then s.(obj := Live(Other)) else s
    case ExternalDrop => s.(obj := Absent)
    case UserDelete =>
      if s.gone then s else s.(res := s.res.(deleting := true), gone := !s.res.finalizer)
    case SetPolicy(p) => if s.gone then s else s.(res := s.res.(policy := p))
  }

  /** Every list of actions is a run. */
  function Exec(order: Order, s: State, run: seq<Action>): (t: State)
    decreases run
  {
    if run == [] then s else Exec(order, Step(order, s, run[0]), run[1..])
  }

  // ---------------------------------------------------------------- what every run keeps

  /** Phases in which the resource is known to hold its finalizer. */
  predicate Guarded(p: Phase) {
    p.Dropping? || p.Releasing? || p.Observing? || p.Updating? || p.Marking? || p.Creating? ||
    p.Verifying? || p.Clearing? || p.Committing?
  }

  ghost predicate Consistent(s: State) {
    && (Guarded(s.phase) ==> s.res.finalizer && !s.gone)
    && (s.phase.Fetched? || s.phase.Observing? ==>
        && s.phase.mem.initiated == s.res.initiated && s.phase.mem.observed == s.res.observed
        && s.phase.mem.finalizer == s.res.finalizer && (s.phase.mem.deleting ==> s.res.deleting))
    && (s.phase.Dropping? || s.phase.Releasing? ==> s.res.deleting)
    && (s.phase.Creating? || s.phase.Verifying? ==> s.res.initiated)
    && (s.phase == Clearing(false) || s.phase.Updating? ==> s.res.observed)
    && (s.gone ==> !s.res.finalizer)
  }

  lemma ConsistentPatch(s: State)
    requires Consistent(s) && !s.gone
    ensures Consistent(Patch(s))
  {
  }

  lemma ConsistentWork(order: Order, s: State, outcome: Outcome)
    requires Consistent(s)
    ensures Consistent(Work(order, s, outcome))
  {
    if !s.gone {
      ConsistentPatch(s);
    }
  }

  lemma ConsistentStep(order: Order, s: State, a: Action)
    requires Consistent(s)
    ensures Consistent(Step(order, s, a))
  {
    if a.Proceed? {
      ConsistentWork(order, s, a.outcome);
    }
  }

  lemma {:induction false} ConsistentRun(order: Order, s: State, run: seq<Action>)
    requires Consistent(s)
    ensures Consistent(Exec(order, s, run))
    decreases run
  {
    if run != [] {
      ConsistentStep(order, s, run[0]);
      ConsistentRun(order, Step(order, s, run[0]), run[1..]);
    }
  }

  // ---------------------------------------------------------------- what the controller does to the object

  /** Of the actions of the controller, only CREATE, on an absent object, and DROP change the object;
      what exists is never made over. */
  lemma ObjectChanges(order: Order, s: State, a: Action)
    requires !a.ExternalCreate? && !a.ExternalDrop?
    ensures var t := Step(order, s, a);
            t.obj != s.obj ==>
              || (s.obj.Absent? && t.obj == Live(Self) && (s.phase.Creating? || s.phase.Updating?))
              || (t.obj.Absent? && s.phase.Dropping?)
  {
  }

  /** CREATE OR ALTER makes sure that the object exists, and the update goes on to its commit. */
  lemma CreateOrAlterEnsures(order: Order, s: State)
    requires Consistent(s) && s.phase.Updating?
    ensures Exec(order, s, [CreateOrAlter, Proceed(Ok)])
         == s.(phase := Idle, obj := if s.obj.Absent? then Live(Self) else s.obj)
  {
    var run := [CreateOrAlter, Proceed(Ok)];
    assert run[1..] == [Proceed(Ok)] && run[1..][1..] == [];
    var s1 := Step(order, s, CreateOrAlter);
    assert Exec(order, s, run) == Exec(order, s1, run[1..]) == Step(order, s1, Proceed(Ok));
  }

  /** A create is marked before it is issued, once: from the observation on, the object is there two
      operations later if and only if the mark was, and the mark is there either way. */
  lemma MarkedBeforeCreate(order: Order, s: State)
    requires Consistent(s) && s.phase.Observing? && !s.phase.mem.policy.observeOnly && s.obj.Absent?
    ensures var t := Exec(order, s, [Proceed(Ok), Proceed(Ok)]);
            t.res.initiated && (t.obj == Live(Self) <==> s.res.initiated)
  {
    var run := [Proceed(Ok), Proceed(Ok)];
    assert run[1..] == [Proceed(Ok)] && run[1..][1..] == [];
    var s1 := Step(order, s, Proceed(Ok));
    assert Exec(order, s, run) == Exec(order, s1, run[1..]) == Step(order, s1, Proceed(Ok));
  }

  /** A spec that cannot be hashed ends the reconcile with the status committed and the annotation as
      it was. */
  lemma HashFailsCommits(order: Order, s: State)
    requires Consistent(s) && (s.phase == Clearing(true) || s.phase.Committing?)
    ensures Step(order, s, HashFails) == s.(phase := Idle, res := s.res.(observed := true))
  {
  }

  /** A deletion takes effect at once without the finalizer, and is only requested with it; what is
      gone stays gone and as it was. */
  lemma DeletionGuarded(order: Order, s: State)
    ensures Step(order, s, UserDelete).gone <==> s.gone || !s.res.finalizer
    ensures !s.gone ==> Step(order, s, UserDelete).res == s.res.(deleting := true)
  {
  }

  lemma GoneStays(order: Order, s: State, a: Action)
    requires Consistent(s) && s.gone
    ensures Step(order, s, a).gone && Step(order, s, a).res == s.res
  {
  }

  // ---------------------------------------------------------------- crash recovery

  /** The record needed to recognise an own object survives: an object this resource
      created is either reported in status or still marked by the annotation. */
  predicate Recoverable(s: State) {
    s.obj == Live(Self) ==> s.res.initiated || s.res.observed
  }

  /** Between the two final patches of the code: unmarked and not yet committed. */
  predicate InWindow(s: State) {
    s.phase.Committing? && !s.res.initiated && !s.res.observed
  }

  /** An action that ends the reconcile without the status patch taking effect. */
  predicate Aborts(a: Action) {
    a.Crash? || (a.Proceed? && !a.outcome.Ok?)
  }

  /** No step of the run aborts inside the window. */
  predicate WindowSafe(order: Order, s: State, run: seq<Action>)
    decreases run
  {
    run == [] || (!(InWindow(s) && Aborts(run[0])) && WindowSafe(order, Step(order, s, run[0]), run[1..]))
  }

  /** With the documented order, every run, crashing anywhere, stays recoverable. */
  lemma StatusFirstAlwaysRecoverable(s: State, run: seq<Action>)
    requires Init(s)
    ensures Recoverable(Exec(StatusFirst, s, run))
  {
    StatusFirstKeeps(s, run);
  }

  lemma {:induction false} StatusFirstKeeps(s: State, run: seq<Action>)
    requires Consistent(s) && Recoverable(s)
    requires s.phase == Clearing(true) ==> !s.res.initiated
    ensures Recoverable(Exec(StatusFirst, s, run))
    decreases run
  {
    if run != [] {
      ConsistentStep(StatusFirst, s, run[0]);
      StatusFirstKeeps(Step(StatusFirst, s, run[0]), run[1..]);
    }
  }

  /** With the order of the code, a run stays recoverable outside the window as long as
      nothing has aborted inside it. */
  lemma {:induction false} AnnotationFirstKeeps(s: State, run: seq<Action>)
    requires Consistent(s) && (Recoverable(s) || InWindow(s))
    requires !(s.phase == Committing(true))
    requires WindowSafe(AnnotationFirst, s, run)
    ensures var t := Exec(AnnotationFirst, s, run);
            Consistent(t) && (Recoverable(t) || InWindow(t)) && t.phase != Committing(true)
    decreases run
  {
    if run != [] {
      ConsistentStep(AnnotationFirst, s, run[0]);
      AnnotationFirstKeeps(Step(AnnotationFirst, s, run[0]), run[1..]);
    }
  }

  /** Exactly when an abort loses an own object: for every state the code can reach
      without having lost one, aborting is recoverable if and only if the worker is not
      between the patch that clears the annotation and the patch that commits status
      with its own object in place. */
  lemma AbortRecoverableIff(s: State, run: seq<Action>, a: Action)
    requires Init(s) && WindowSafe(AnnotationFirst, s, run) && Aborts(a)
    ensures var t := Exec(AnnotationFirst, s, run);
            Recoverable(Step(AnnotationFirst, t, a)) <==> !(InWindow(t) && t.obj == Live(Self))
  {
    AnnotationFirstKeeps(s, run);
  }

  const DEFAULT_POLICY := Policy(false, false, false, false, false)
  const FRESH := State(Resource(false, false, false, false, DEFAULT_POLICY), false, Absent, Idle)
  const OK := Proceed(Ok)

  lemma {:induction false} ExecConcat(order: Order, s: State, a: seq<Action>, b: seq<Action>)
    ensures Exec(order, s, a + b) == Exec(order, Exec(order, s, a), b)
    decreases a
  {
    if a == [] {
      assert a + b == b;
    } else {
      assert (a + b)[1..] == a[1..] + b;
      ExecConcat(order, Step(order, s, a[0]), a[1..], b);
    }
  }

  lemma ExecThree(order: Order, s: State, a: Action, b: Action, c: Action)
    ensures Exec(order, s, [a, b, c]) == Step(order, Step(order, Step(order, s, a), b), c)
  {
    assert [a, b, c][1..] == [b, c] && [b, c][1..] == [c];
    var s1 := Step(order, s, a);
    assert Exec(order, s, [a, b, c]) == Exec(order, s1, [b, c]);
    var s2 := Step(order, s1, b);
    assert Exec(order, s1, [b, c]) == Exec(order, s2, [c]);
    var s3 := Step(order, s2, c);
    assert Exec(order, s2, [c]) == Exec(order, s3, []);
  }

  /** The window is reachable: a first create that dies between its last two patches. */
  lemma CreateLost()
    ensures Init(FRESH)
    ensures var t := Exec(AnnotationFirst, FRESH, [OK, OK, OK] + [OK, OK, OK] + [OK, OK, OK] + [OK, Crash, Crash]);
            t.phase.Idle? && t.obj == Live(Self) && t.res.finalizer && !Recoverable(t)
  {
    var order := AnnotationFirst;
    ExecThree(order, FRESH, OK, OK, OK);
    var s1 := Exec(order, FRESH, [OK, OK, OK]);
    assert s1 == FRESH.(res := FRESH.res.(finalizer := true));
    ExecThree(order, s1, OK, OK, OK);
    var s2 := Exec(order, s1, [OK, OK, OK]);
    assert s2 == s1.(phase := Marking);
    ExecThree(order, s2, OK, OK, OK);
    var s3 := Exec(order, s2, [OK, OK, OK]);
    assert s3.phase == Clearing(true) && s3.obj == Live(Self);
    ExecThree(order, s3, OK, Crash, Crash);
    ExecConcat(order, FRESH, [OK, OK, OK], [OK, OK, OK]);
    ExecConcat(order, FRESH, [OK, OK, OK] + [OK, OK, OK], [OK, OK, OK]);
    ExecConcat(order, FRESH, [OK, OK, OK] + [OK, OK, OK] + [OK, OK, OK], [OK, Crash, Crash]);
  }

  // ---------------------------------------------------------------- convergence

  function Rank(p: Phase): (n: nat) {
    match p
    case Idle => 0
    case AddingFinalizer => 1
    case Releasing => 1
    case Dropping => 2
    case Clearing(next) => if next then 4 else 3
    case Committing(next) => if next then 4 else 3
    case Updating => 4
    case Verifying => 5
    case Creating => 6
    case Marking => 7
    case Observing(_) => 8
    case Fetched(_) => 9
  }

  /** The rest of a reconcile in which every operation succeeds. */
  function Finish(order: Order, s: State): (t: State)
    decreases Rank(s.phase)
  {
    if s.phase.Idle? then s else Finish(order, Work(order, s, Ok))
  }

  /** One whole reconcile in which every operation succeeds. */
  function Reconcile(order: Order, s: State): (t: State)
    requires s.phase.Idle?
    ensures t.phase.Idle?
  {
    FinishIdle(order, Work(order, s, Ok));
    Finish(order, Work(order, s, Ok))
  }

  lemma {:induction false} FinishIdle(order: Order, s: State)
    ensures Finish(order, s).phase.Idle?
    decreases Rank(s.phase)
  {
    if !s.phase.Idle? { FinishIdle(order, Work(order, s, Ok)); }
  }

  /** A fault-free reconcile is a run of the machine. */
  lemma {:induction false} FinishIsRun(order: Order, s: State) returns (run: seq<Action>)
    ensures forall a :: a in run ==> a == OK
    ensures Exec(order, s, run) == Finish(order, s)
    decreases Rank(s.phase)
  {
    if s.phase.Idle? {
      run := [];
    } else {
      var rest := FinishIsRun(order, Work(order, s, Ok));
      run := [OK] + rest;
      assert run[1..] == rest;
    }
  }

  /** The switches under which the reconciler manages the object and refuses to adopt. */
  predicate FailIfExists(p: Policy) {
    !p.paused && !p.observeOnly && !p.adopt
  }

  /** Committing from the first of the two patches ends observed and leaves the object alone. */
  lemma FinishCommit(order: Order, s: State)
    requires s.phase == FirstPatch(order) && !s.gone
    ensures Finish(order, s) == s.(phase := Idle, res := s.res.(initiated := false, observed := true))
  {
    var s1 := Work(order, s, Ok);
    var s2 := Work(order, s1, Ok);
    assert Finish(order, s) == Finish(order, s1) == Finish(order, s2);
  }

  /** From CREATE on, an absent object ends up created and reported. */
  lemma FinishCreating(order: Order, s: State)
    requires s.phase.Creating? && s.obj.Absent? && !s.gone
    ensures Finish(order, s)
         == s.(phase := Idle, obj := Live(Self), res := s.res.(initiated := false, observed := true))
  {
    var s1 := Work(order, s, Ok);
    var s2 := Work(order, s1, Ok);
    assert Finish(order, s) == Finish(order, s1) == Finish(order, s2);
    FinishCommit(order, s2);
  }

  /** From the branch on: an absent object is created, an own one recognised if marked or
      reported, any other one refused. */
  lemma FinishObserving(order: Order, s: State)
    requires Consistent(s) && s.phase.Observing? && FailIfExists(s.phase.mem.policy)
    ensures var t := Finish(order, s);
            && t.gone == s.gone && t.res.finalizer && t.res.policy == s.res.policy && t.res.deleting == s.res.deleting
            && (s.obj.Absent? ==> t.obj == Live(Self) && t.res.observed)
            && (s.obj.Live? ==> t.obj == s.obj && t.res.observed == (s.res.observed || s.res.initiated))
            && (s.obj.Live? && !s.res.initiated ==> !t.res.initiated)
  {
    var s1 := Work(order, s, Ok);
    assert Finish(order, s) == Finish(order, s1);
    if s1.phase.Marking? {
      FinishCreating(order, Work(order, s1, Ok));
    } else if s1.phase.Creating? {
      FinishCreating(order, s1);
    } else if s1.phase.Updating? {
      var s2 := Work(order, s1, Ok);
      assert Finish(order, s1) == Finish(order, s2) == Work(order, s2, Ok);
    } else if s.res.initiated {
      FinishCommit(order, s1);
    }
  }

  lemma ReconcileManaged(order: Order, s: State)
    requires Consistent(s) && s.phase.Idle? && !s.gone && !s.res.deleting && FailIfExists(s.res.policy)
    ensures var t := Reconcile(order, s);
            && t.res.finalizer && !t.gone && !t.res.deleting && t.res.policy == s.res.policy && Consistent(t)
            && (!s.res.finalizer ==> t == s.(res := s.res.(finalizer := true)))
            && (s.res.finalizer && s.obj.Absent? ==> t.obj == Live(Self) && t.res.observed)
            && (s.res.finalizer && s.obj.Live? ==>
                t.obj == s.obj && t.res.observed == (s.res.observed || s.res.initiated))
            && (s.res.finalizer && s.obj.Live? && !s.res.initiated ==> !t.res.initiated)
  {
    var s1 := Work(order, s, Ok);
    var s2 := Work(order, s1, Ok);
    assert Finish(order, s1) == Finish(order, s2);
    if s.res.finalizer {
      FinishObserving(order, s2);
    } else {
      assert Finish(order, s2) == Work(order, s2, Ok);
    }
  }

  /** What one undisturbed reconcile amounts to, whatever the switches: a paused or departed resource is
      left alone; a deleted one is let go, its object dropped unless a switch spares it; otherwise
      the finalizer comes first, then an object is reported if only watched, created if absent,
      and kept and reported if it is known, marked or to be adopted. */
  function Settled(s: State): (t: State) {
    var r, p := s.res, s.res.policy;
    if s.gone || p.paused || (r.deleting && !r.finalizer) then s
    else if r.deleting then
      s.(res := r.(finalizer := false), gone := true, obj := if MustDrop(p) then Absent else s.obj)
    else if !r.finalizer then s.(res := r.(finalizer := true))
    else if p.observeOnly then s.(res := r.(observed := r.observed || s.obj.Live?))
    else if s.obj.Absent? then s.(obj := Live(Self), res := r.(initiated := false, observed := true))
    else if r.observed then s
    else s.(res := r.(initiated := false, observed := r.initiated || p.adopt))
  }

  lemma FinishReleasing(order: Order, s: State)
    requires s.phase.Releasing? && !s.gone && s.res.deleting
    ensures Finish(order, s) == s.(phase := Idle, res := s.res.(finalizer := false), gone := true)
  {
    assert Finish(order, s) == Finish(order, Work(order, s, Ok));
  }

  lemma FinishDeleting(order: Order, s: State)
    requires Consistent(s) && s.phase.Fetched? && s.phase.mem == s.res && s.res.deleting && s.res.finalizer && !s.gone
    requires !s.res.policy.paused
    ensures Finish(order, s) == Settled(s.(phase := Idle))
  {
    var s1 := Work(order, s, Ok);
    assert Finish(order, s) == Finish(order, s1);
    if s1.phase.Dropping? {
      var s2 := Work(order, s1, Ok);
      assert Finish(order, s1) == Finish(order, s2);
      FinishReleasing(order, s2);
    } else {
      FinishReleasing(order, s1);
    }
  }

  lemma FinishLive(order: Order, s: State)
    requires Consistent(s) && s.phase.Observing? && s.phase.mem == s.res && s.res.finalizer && !s.gone
    requires !s.res.policy.paused && !s.res.deleting && (s.obj.Live? || s.res.policy.observeOnly)
    ensures Finish(order, s) == Settled(s.(phase := Idle))
  {
    var s1 := Work(order, s, Ok);
    assert Finish(order, s) == Finish(order, s1);
    if s1.phase.Idle? {
    } else if s1.phase == Committing(false) {
      assert Finish(order, s1) == Finish(order, Work(order, s1, Ok));
    } else if s1.phase.Updating? {
      var s2 := Work(order, s1, Ok);
      assert Finish(order, s1) == Finish(order, s2) == Finish(order, Work(order, s2, Ok));
    } else if s.res.initiated {
      FinishCommit(order, s1);
    } else {
      var s2 := Work(order, s1, Ok);
      assert Finish(order, s1) == Finish(order, s2) == Finish(order, Work(order, s2, Ok));
    }
  }

  lemma FinishAbsent(order: Order, s: State)
    requires Consistent(s) && s.phase.Observing? && s.phase.mem == s.res && s.res.finalizer && !s.gone
    requires !s.res.policy.paused && !s.res.deleting && s.obj.Absent? && !s.res.policy.observeOnly
    ensures Finish(order, s) == Settled(s.(phase := Idle))
  {
    var s1 := Work(order, s, Ok);
    assert Finish(order, s) == Finish(order, s1);
    if s1.phase.Marking? {
      var s2 := Work(order, s1, Ok);
      assert Finish(order, s1) == Finish(order, s2);
      FinishCreating(order, s2);
    } else {
      FinishCreating(order, s1);
    }
  }

  /** The steps of an undisturbed reconcile, in either order of the last patches, lead there from every
      state that can occur between reconciles. */
  lemma ReconcileSettles(order: Order, s: State)
    requires Consistent(s) && s.phase.Idle?
    ensures Reconcile(order, s) == Settled(s)
  {
    var s1 := Work(order, s, Ok);
    assert Reconcile(order, s) == Finish(order, s1);
    if !s.gone {
      var s2 := Work(order, s1, Ok);
      assert Finish(order, s1) == Finish(order, s2);
      ConsistentWork(order, s, Ok);
      ConsistentWork(order, s1, Ok);
      if s2.phase.Observing? {
        if s.obj.Absent? && !s.res.policy.observeOnly {
          FinishAbsent(order, s2);
        } else {
          FinishLive(order, s2);
        }
      } else if s.res.deleting && s.res.finalizer && !s.res.policy.paused {
        FinishDeleting(order, s1);
      } else if s2.phase.AddingFinalizer? {
        assert Finish(order, s2) == Finish(order, Work(order, s2, Ok));
      }
    }
  }

  /** Adoption: an object somebody else created is taken on by an unmarked resource exactly when the
      policy says so, as it is and with nothing left marked. */
  lemma AdoptsIff(order: Order, s: State)
    requires Consistent(s) && s.phase.Idle? && !s.gone && !s.res.deleting && s.res.finalizer
    requires !s.res.policy.paused && !s.res.policy.observeOnly
    requires s.obj == Live(Other) && !s.res.observed && !s.res.initiated
    ensures Reconcile(order, s).res.observed <==> s.res.policy.adopt
    ensures Reconcile(order, s).obj == s.obj && !Reconcile(order, s).res.initiated
  {
    ReconcileSettles(order, s);
  }

  /** A paused resource is not touched, deleted or not. */
  lemma PausedRests(order: Order, s: State)
    requires Consistent(s) && s.phase.Idle? && s.res.policy.paused
    ensures Reconcile(order, s) == s
  {
    ReconcileSettles(order, s);
  }

  /** An operation that fails has no effect and ends the reconcile, except that a provider that cannot
      be resolved lets a deleted resource go. */
  lemma FailureStops(order: Order, s: State)
    requires !s.phase.Idle?
    requires !(s.phase.Fetched? && s.phase.mem.deleting && s.phase.mem.finalizer && !s.phase.mem.policy.paused)
    ensures Work(order, s, Fails) == s.(phase := Idle)
  {
  }

  /** Recovery, exactly: left alone from any consistent idle state whose object is absent
      or its own, two reconciles make the resource report its object if and only if the
      state is recoverable. */
  lemma ConvergesIffRecoverable(order: Order, s: State)
    requires Consistent(s) && s.phase.Idle? && !s.gone && !s.res.deleting && FailIfExists(s.res.policy)
    requires s.obj != Live(Other)
    ensures var t := Reconcile(order, Reconcile(order, s));
            (t.res.observed && t.obj == Live(Self)) <==> Recoverable(s)
  {
    ReconcileManaged(order, s);
    var s1 := Reconcile(order, s);
    ReconcileManaged(order, s1);
    assert s.obj.Live? ==> s.obj.maker == Self;
  }

  /** The promise of the creation-initiated annotation in full, for the documented order:
      whatever happened before, a crash followed by two undisturbed reconciles ends with
      the resource reporting the object it created. */
  lemma CrashThenConverges(s: State, run: seq<Action>)
    requires Init(s)
    requires var t := Exec(StatusFirst, s, run);
             !t.gone && !t.res.deleting && FailIfExists(t.res.policy) && t.obj != Live(Other)
    ensures var c := Step(StatusFirst, Exec(StatusFirst, s, run), Crash);
            var t := Reconcile(StatusFirst, Reconcile(StatusFirst, c));
            t.res.observed && t.obj == Live(Self)
  {
    StatusFirstAlwaysRecoverable(s, run);
    ConsistentRun(StatusFirst, s, run);
    ConvergesIffRecoverable(StatusFirst, Step(StatusFirst, Exec(StatusFirst, s, run), Crash));
  }

  /** And what the order of the code makes of it: after any run that has lost nothing yet, an abort
      followed by two undisturbed reconciles ends with the resource reporting the object it
      created if and only if the abort did not fall between the two patches with that object in
      place. */
  lemma AbortConvergesIff(s: State, run: seq<Action>, a: Action)
    requires Init(s) && WindowSafe(AnnotationFirst, s, run) && Aborts(a)
    requires var c := Step(AnnotationFirst, Exec(AnnotationFirst, s, run), a);
             c.phase.Idle? && !c.gone && !c.res.deleting && FailIfExists(c.res.policy) && c.obj != Live(Other)
    ensures var t := Exec(AnnotationFirst, s, run);
            var c := Step(AnnotationFirst, t, a);
            var u := Reconcile(AnnotationFirst, Reconcile(AnnotationFirst, c));
            (u.res.observed && u.obj == Live(Self)) <==> !(InWindow(t) && t.obj == Live(Self))
  {
    var t := Exec(AnnotationFirst, s, run);
    AbortRecoverableIff(s, run, a);
    ConsistentRun(AnnotationFirst, s, run);
    ConsistentStep(AnnotationFirst, t, a);
    ConvergesIffRecoverable(AnnotationFirst, Step(AnnotationFirst, t, a));
  }

  /** An own object the resource no longer recognises, under fail-if-exists. */
  predicate Lost(s: State) {
    && s.obj == Live(Self) && !s.res.initiated && !s.res.observed && !s.res.deleting && !s.gone
    && FailIfExists(s.res.policy)
    && (s.phase.Idle? || s.phase.AddingFinalizer? ||
        ((s.phase.Fetched? || s.phase.Observing?) && s.phase.mem.policy == s.res.policy &&
         !s.phase.mem.deleting && !s.phase.mem.initiated && !s.phase.mem.observed))
  }

  /** Losing it is permanent: no number of retries, failures or crashes of the controller
      leaves the lost state; only the user or an outside actor can. */
  lemma {:induction false} LostForever(order: Order, s: State, run: seq<Action>)
    requires Lost(s)
    requires forall a :: a in run ==> a.Proceed? || a.CreateOrAlter? || a.HashFails? || a.Crash?
    ensures Lost(Exec(order, s, run))
    decreases run
  {
    if run != [] {
      assert run[0] in run;
      LostForever(order, Step(order, s, run[0]), run[1..]);
    }
  }

  // ---------------------------------------------------------------- foreign objects

  /** Exactly when a reconcile takes over an object somebody else created although
      adoption was not asked for: when the annotation is already set. */
  lemma TakeoverIffInitiated(order: Order, s: State)
    requires Consistent(s) && s.phase.Idle? && !s.gone && !s.res.deleting && FailIfExists(s.res.policy)
    requires s.obj == Live(Other) && s.res.finalizer && !s.res.observed
    ensures Reconcile(order, s).res.observed <==> s.res.initiated
    ensures Reconcile(order, s).obj == Live(Other)
  {
    ReconcileManaged(order, s);
  }

  /** Observing is enough to manage: a resource that was observe-only while somebody else's object
      existed manages that object once the switch is turned off, without adoption. */
  lemma ObservedThenManaged(order: Order, s: State, p: Policy)
    requires Consistent(s) && s.phase.Idle? && !s.gone && !s.res.deleting && s.res.finalizer
    requires s.res.policy.observeOnly && !s.res.policy.paused && s.obj == Live(Other) && FailIfExists(p)
    ensures var t := Reconcile(order, Step(order, Reconcile(order, s), SetPolicy(p)));
            t.res.observed && t.obj == Live(Other) && t.res.policy == p
  {
    var s1 := Work(order, s, Ok);
    var s2 := Work(order, s1, Ok);
    var s3 := Work(order, s2, Ok);
    assert Finish(order, s1) == Finish(order, s2) == Finish(order, s3) == Work(order, s3, Ok);
    ReconcileManaged(order, Step(order, Reconcile(order, s), SetPolicy(p)));
  }

  /** The resource has laid claim to the object, or is about to. */
  predicate Claimed(s: State) {
    s.res.initiated || s.res.observed || s.phase.Marking? || s.phase.Committing? || s.phase.Clearing?
  }

  predicate NeverAdopts(p: Policy) {
    !p.observeOnly && !p.adopt
  }

  /** The environment neither switches adoption on nor creates the object behind a claim. */
  predicate Undisturbed(order: Order, s: State, run: seq<Action>)
    decreases run
  {
    run == [] ||
    (&& (run[0].SetPolicy? ==> NeverAdopts(run[0].policy))
     && (run[0].ExternalCreate? ==> !Claimed(s))
     && Undisturbed(order, Step(order, s, run[0]), run[1..]))
  }

  ghost predicate OwnClaim(s: State) {
    && Consistent(s) && NeverAdopts(s.res.policy)
    && (s.phase.Fetched? || s.phase.Observing? ==> NeverAdopts(s.phase.mem.policy))
    && (Claimed(s) ==> s.obj != Live(Other))
  }

  lemma OwnClaimWork(order: Order, s: State, outcome: Outcome)
    requires OwnClaim(s)
    ensures OwnClaim(Work(order, s, outcome))
  {
    ConsistentWork(order, s, outcome);
  }

  lemma OwnClaimStep(order: Order, s: State, a: Action)
    requires OwnClaim(s)
    requires a.SetPolicy? ==> NeverAdopts(a.policy)
    requires a.ExternalCreate? ==> !Claimed(s)
    ensures OwnClaim(Step(order, s, a))
  {
    if a.Proceed? {
      OwnClaimWork(order, s, a.outcome);
    } else {
      ConsistentStep(order, s, a);
    }
  }

  lemma {:induction false} OwnClaimRun(order: Order, s: State, run: seq<Action>)
    requires OwnClaim(s) && Undisturbed(order, s, run)
    ensures OwnClaim(Exec(order, s, run))
    decreases run
  {
    if run != [] {
      OwnClaimStep(order, s, run[0]);
      OwnClaimRun(order, Step(order, s, run[0]), run[1..]);
    }
  }

  /** Then the resource never reports an object it did not create, in any run. */
  lemma NoTakeover(order: Order, s: State, run: seq<Action>)
    requires Init(s) && NeverAdopts(s.res.policy) && Undisturbed(order, s, run)
    ensures var t := Exec(order, s, run); t.res.observed ==> t.obj != Live(Other)
  {
    OwnClaimRun(order, s, run);
  }

  /** Deleting the resource drops whatever object carries its name: whether the resource
      ever created, adopted or even reported it plays no part. */
  lemma DeleteDropsForeignIff(order: Order, s: State)
    requires Consistent(s) && s.phase.Idle? && !s.gone && s.res.deleting && s.res.finalizer
    requires s.obj == Live(Other)
    ensures var p := s.res.policy;
            Reconcile(order, s).obj.Absent? <==> !p.paused && !p.observeOnly && !p.orphan && !p.abandon
  {
    var s1 := Work(order, s, Ok);
    var s2 := Work(order, s1, Ok);
    assert Finish(order, s1) == Finish(order, s2);
    if s2.phase.Dropping? {
      var s3 := Work(order, s2, Ok);
      assert Finish(order, s2) == Finish(order, s3) == Work(order, s3, Ok);
    } else if s2.phase.Releasing? {
      assert Finish(order, s2) == Work(order, s2, Ok);
    }
  }

  /** So a resource refused because the object already existed drops it when deleted. */
  lemma RefusedThenDeletedDropsForeign(order: Order)
    ensures var s := FRESH.(obj := Live(Other));
            var refused := Reconcile(order, Reconcile(order, s));
            && Init(s) && !refused.res.observed && refused.obj == Live(Other)
            && Reconcile(order, Step(order, refused, UserDelete)).obj == Absent
  {
    var s := FRESH.(obj := Live(Other));
    ReconcileManaged(order, s);
    var s1 := Reconcile(order, s);
    ReconcileManaged(order, s1);
    DeleteDropsForeignIff(order, Step(order, Reconcile(order, s1), UserDelete));
  }

  // ---------------------------------------------------------------- deletion

  /** The ways the code lets a resource go without dropping its object. */
  predicate Escapes(s: State, a: Action) {
    || (a.SetPolicy? && (a.policy.orphan || a.policy.abandon || a.policy.observeOnly))
    || (a.Proceed? && a.outcome.Ambiguous? && s.phase.Dropping?)
    || (a.Proceed? && !a.outcome.Ok? && s.phase.Fetched? && s.phase.mem.deleting)
  }

  predicate NoEscape(order: Order, s: State, run: seq<Action>)
    decreases run
  {
    run == [] || (!Escapes(s, run[0]) && NoEscape(order, Step(order, s, run[0]), run[1..]))
  }

  predicate MustDrop(p: Policy) {
    !p.orphan && !p.abandon && !p.observeOnly
  }

  /** No leak: in every run that takes none of the escapes, crashes anywhere included, a
      resource that is gone leaves no object of its own behind. */
  lemma NoLeak(order: Order, s: State, run: seq<Action>)
    requires Init(s) && MustDrop(s.res.policy) && NoEscape(order, s, run)
    ensures var t := Exec(order, s, run); t.gone ==> t.obj != Live(Self)
  {
    NothingLeftRun(order, s, run);
  }

  /** Without its finalizer, or about to lose it, the resource has no object left. */
  ghost predicate NothingLeft(s: State) {
    && Consistent(s) && MustDrop(s.res.policy)
    && (s.phase.Fetched? || s.phase.Observing? ==> MustDrop(s.phase.mem.policy))
    && (!s.res.finalizer || s.phase.Releasing? ==> s.obj != Live(Self))
  }

  lemma NothingLeftWork(order: Order, s: State, outcome: Outcome)
    requires NothingLeft(s) && !Escapes(s, Proceed(outcome))
    ensures NothingLeft(Work(order, s, outcome))
  {
    ConsistentWork(order, s, outcome);
  }

  lemma NothingLeftStep(order: Order, s: State, a: Action)
    requires NothingLeft(s) && !Escapes(s, a)
    ensures NothingLeft(Step(order, s, a))
  {
    if a.Proceed? {
      NothingLeftWork(order, s, a.outcome);
    } else {
      ConsistentStep(order, s, a);
    }
  }

  lemma {:induction false} NothingLeftRun(order: Order, s: State, run: seq<Action>)
    requires NothingLeft(s) && NoEscape(order, s, run)
    ensures NothingLeft(Exec(order, s, run))
    decreases run
  {
    if run != [] {
      NothingLeftStep(order, s, run[0]);
      NothingLeftRun(order, Step(order, s, run[0]), run[1..]);
    }
  }

  /** The escapes are real: with the object in place and nothing in the policy sparing it, letting
      the resource go leaks the object exactly when the DROP was ambiguous, or when the provider
      could not be resolved. */
  lemma LeaksIff(order: Order, s: State, o: Outcome)
    requires Consistent(s) && s.obj == Live(Self)
    requires s.phase.Dropping? ||
             (s.phase.Fetched? && s.phase.mem.deleting && s.phase.mem.finalizer && !s.phase.mem.policy.paused
              && MustDrop(s.phase.mem.policy))
    ensures var t := Work(order, Work(order, s, o), Ok);
            (t.gone && t.obj == Live(Self)) <==> if s.phase.Dropping? then o.Ambiguous? else !o.Ok?
  {
  }

  // ---------------------------------------------------------------- observe-only

  /** What an action of the outside world makes of the object. */
  function Outside(obj: Object, a: Action): (o: Object) {
    if a.ExternalDrop? then Absent else if a.ExternalCreate? && obj.Absent? then Live(Other) else obj
  }

  function OutsideOnly(obj: Object, run: seq<Action>): (o: Object)
    decreases run
  {
    if run == [] then obj else OutsideOnly(Outside(obj, run[0]), run[1..])
  }

  ghost predicate Watching(s: State) {
    && Consistent(s) && s.res.policy.observeOnly
    && !s.phase.Dropping? && !s.phase.Updating? && !s.phase.Marking? && !s.phase.Creating?
    && (s.phase.Fetched? || s.phase.Observing? ==> s.phase.mem.policy.observeOnly)
  }

  lemma WatchingStep(order: Order, s: State, a: Action)
    requires Watching(s) && (a.SetPolicy? ==> a.policy.observeOnly)
    ensures Watching(Step(order, s, a)) && Step(order, s, a).obj == Outside(s.obj, a)
  {
    ConsistentStep(order, s, a);
  }

  /** While a resource is observe-only, no run of the controller touches Snowflake. */
  lemma {:induction false} ObserveOnlyNeverWrites(order: Order, s: State, run: seq<Action>)
    requires Watching(s)
    requires forall a :: a in run && a.SetPolicy? ==> a.policy.observeOnly
    ensures Exec(order, s, run).obj == OutsideOnly(s.obj, run)
    decreases run
  {
    if run != [] {
      assert run[0] in run;
      WatchingStep(order, s, run[0]);
      ObserveOnlyNeverWrites(order, Step(order, s, run[0]), run[1..]);
    }
  }
}
