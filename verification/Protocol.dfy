/** The whole adapter as a transition system: the poll loop with its semaphore and wait group,
    the target tasks interleaved step by step, and everything that happens around them. */
module Protocol {
  import opened Text
  import opened Runs
  import opened Backoffs
  import opened Clients
  import opened Decisions
  import opened Tasks

  datatype System = System(w: World, cfg: Config, maxConcurrentTargets: int) {
    function Capacity(): nat {
      if maxConcurrentTargets < 1 then 1 else maxConcurrentTargets
    }
  }

  /** A goroutine: reconciling, then its token is released, then it is done. */
  datatype Stage = Working(task: Task) | Unwound | Gone

  datatype Worker = Worker(t: Target, stage: Stage)

  /** The poll loop: between cycles, at the select statement for target `k`, holding the token
      for target `k`, or waiting for the wait group. */
  datatype Main =
    | Idle
    | Select(targets: seq<Target>, k: nat)
    | Holding(targets: seq<Target>, k: nat)
    | Waiting(targets: seq<Target>)

  /** `archive`, `purged`, `births` and `ledger` are history: the runs deleted when no check
      could still need them, the runs deleted before that, every run as it was created by the
      adapter, and every answer to a create call with the collections in between. */
  datatype State = State(
    main: Main,
    workers: seq<Worker>,
    tokens: nat,
    wg: nat,
    sh: Shared,
    clock: Time,
    registry: seq<Target>,
    cancelled: bool,
    archive: seq<Run>,
    purged: seq<Run>,
    births: seq<Run>,
    ledger: seq<Event>)

  datatype Action =
    | Poll(suspended: Option<bool>)
    | Acquire
    | Launch
    | Abort
    | LoopEnd
    | Return
    | Work(k: nat, inp: Input)
    | Release(k: nat)
    | Done(k: nat)
    | Operate(name: string, conditions: seq<Condition>)
    | Delete(name: string)
    | Appear(run: Run)
    | Tick(clock: Time)
    | Cancel
    | Retarget(targets: seq<Target>)
    | Restart

  ghost predicate Distinct(targets: seq<Target>) {
    forall i, j :: 0 <= i < j < |targets| ==> targets[i].name != targets[j].name && targets[i].scope != targets[j].scope
  }

  // ---------------------------------------------------------------- one worker's step

  predicate CanWork(wk: Worker) {
    wk.stage.Working? && !wk.stage.task.Finished?
  }

  /** The run a create step adds to the store, if it adds one. */
  function Born(t: Target, task: Task, store: Store, inp: Input): seq<Run> {
    if task.Creating? && !inp.fault.FailBefore? && task.run.name !in store
    then [Sent(t, task.run, inp.clock)] else []
  }

  /** The step creates the run `b` for target `t`, whatever the create call then reports. */
  ghost predicate Creates(s: State, a: Action, t: Target, b: Run) {
    && a.Work? && a.k < |s.workers| && s.workers[a.k].stage.Working?
    && s.workers[a.k].t == t
    && Born(t, s.workers[a.k].stage.task, s.sh.store, a.inp) == [b]
  }

  /** What a settling step has learned: its create call failed, stamped with the clock, or was
      answered.  A call cut short by cancellation teaches nothing. */
  function Logged(t: Target, task: Task, inp: Input): seq<Event> {
    if !task.Settling? then []
    else
      var key := BackoffKey(t.name, Group(task.run));
      match task.answer
      case Errored => if inp.cancelled then [] else [Failure(key, task.l.now, inp.clock)]
      case Created => [Success(key)]
      case AlreadyExists => [Success(key)]
  }

  ghost function ApplyWork(sys: System, s: State, k: nat, inp: Input): State
    requires k < |s.workers| && s.workers[k].stage.Working?
  {
    var t, task := s.workers[k].t, s.workers[k].stage.task;
    var (next, sh) := Step(sys.w, sys.cfg, t, task, s.sh, inp);
    s.(workers := s.workers[k := Worker(t, Working(next))],
       sh := sh,
       births := s.births + Born(t, task, s.sh.store, inp),
       ledger := s.ledger + Logged(t, task, inp))
  }

  // ---------------------------------------------------------------- the operator

  /** What the operator may do to a run: a terminal run keeps its terminal time; a terminal time
      that appears is taken from the clock after the run's creation. */
  ghost predicate AllowedChange(w: World, clock: Time, r: Run, conditions: seq<Condition>) {
    var after := r.(conditions := conditions);
    if IsActive(r, w.phaseOf)
    then TerminalTime(after, w.phaseOf).Some? ==> r.created <= TerminalTime(after, w.phaseOf).value <= clock
    else !IsActive(after, w.phaseOf) && TerminalTime(after, w.phaseOf) == TerminalTime(r, w.phaseOf)
  }

  /** A run that no check can still need: terminal, and past its cooldown when it has one. */
  ghost predicate Cooled(sys: System, r: Run, at: Time) {
    && !IsActive(r, sys.w.phaseOf)
    && (sys.cfg.postRunDelay > 0 && TerminalTime(r, sys.w.phaseOf).Some?
        ==> TerminalTime(r, sys.w.phaseOf).value + sys.cfg.postRunDelay <= at)
  }

  // ---------------------------------------------------------------- transitions

  ghost predicate Enabled(sys: System, s: State, a: Action) {
    match a
    case Poll(_) => s.main.Idle?
    case Acquire => s.main.Select? && s.main.k < |s.main.targets| && s.tokens < sys.Capacity()
    case Launch => s.main.Holding?
    case Abort => s.main.Select? && s.main.k < |s.main.targets| && s.cancelled
    case LoopEnd => s.main.Select? && s.main.k >= |s.main.targets|
    case Return => s.main.Waiting? && s.wg == 0
    case Work(k, inp) =>
      && k < |s.workers| && CanWork(s.workers[k])
      && inp.clock == s.clock
      && (s.workers[k].stage.task.Listing? && inp.listed.Some?
          ==> IsListing(s.sh.store, s.workers[k].t.scope, inp.listed.value))
    case Release(k) => k < |s.workers| && s.workers[k].stage.Working? && s.workers[k].stage.task.Finished? &&
        s.tokens > 0
    case Done(k) => k < |s.workers| && s.workers[k].stage.Unwound? && s.wg > 0
    case Operate(name, conditions) => name in s.sh.store && AllowedChange(sys.w, s.clock, s.sh.store[name], conditions)
    case Delete(name) => name in s.sh.store
    case Appear(r) => r.name !in s.sh.store && Foreign(r) && r.conditions == [] && r.created == s.clock
    case Tick(clock) => s.clock <= clock
    case Cancel => true
    case Retarget(_) => true
    case Restart => true
  }

  ghost function Apply(sys: System, s: State, a: Action): State
    requires Enabled(sys, s, a)
  {
    match a
    case Poll(suspended) =>
      if suspended != Some(false) then s
      else s.(main := Select(s.registry, 0), workers := [], tokens := 0, wg := 0,
              sh := s.sh.(backoff := Collected(s.sh.backoff, s.clock)),
              ledger := s.ledger + [Collection(s.clock)])
    case Acquire => s.(main := Holding(s.main.targets, s.main.k), tokens := s.tokens + 1)
    case Launch =>
      if s.main.k < |s.main.targets|
      then s.(main := Select(s.main.targets, s.main.k + 1), wg := s.wg + 1,
              workers := s.workers + [Worker(s.main.targets[s.main.k], Working(Fetching))])
      else s
    case Abort => s.(main := Waiting(s.main.targets))
    case LoopEnd => s.(main := Waiting(s.main.targets))
    case Return => s.(main := Idle)
    case Work(k, inp) => ApplyWork(sys, s, k, inp)
    case Release(k) => s.(workers := s.workers[k := s.workers[k].(stage := Unwound)], tokens := s.tokens - 1)
    case Done(k) => s.(workers := s.workers[k := s.workers[k].(stage := Gone)], wg := s.wg - 1)
    case Operate(name, conditions) =>
      s.(sh := s.sh.(store := s.sh.store[name := s.sh.store[name].(conditions := conditions)]))
    case Delete(name) =>
      var r := s.sh.store[name];
      var past := Cooled(sys, r, s.clock);
      s.(sh := s.sh.(store := s.sh.store - {name}),
         archive := if past then s.archive + [r] else s.archive,
         purged := if past then s.purged else s.purged + [r])
    case Appear(r) => s.(sh := s.sh.(store := s.sh.store[r.name := r]))
    case Tick(clock) => s.(clock := clock)
    case Cancel => s.(cancelled := true)
    case Retarget(targets) => s.(registry := targets)
    case Restart =>
      s.(main := Idle, workers := [], tokens := 0, wg := 0, sh := s.sh.(backoff := map[]), ledger := [],
         cancelled := false)
  }

  // ---------------------------------------------------------------- initial states and runs

  /** A run whose times fit the clock. */
  ghost predicate Dated(sys: System, r: Run, clock: Time) {
    && r.created <= clock
    && (TerminalTime(r, sys.w.phaseOf).Some? ==> r.created <= TerminalTime(r, sys.w.phaseOf).value <= clock)
  }

  /** Of two different stored runs of the scope and group, at most one is active. */
  ghost predicate UniqueActive(w: World, store: Store, scope: string, fp: string) {
    forall m, n :: m in store && n in store && m != n && InScope(scope, store[m]) && InScope(scope, store[n])
                   && Group(store[m]) == fp && Group(store[n]) == fp
                   ==> !IsActive(store[m], w.phaseOf) || !IsActive(store[n], w.phaseOf)
  }

  /** The adapter starts with any stored runs whose times fit the clock, and with nothing in memory. */
  ghost predicate Init(sys: System, s: State) {
    && sys.w.Valid()
    && s.main.Idle? && s.workers == [] && s.tokens == 0 && s.wg == 0
    && s.sh.backoff == map[] && s.archive == [] && s.purged == [] && s.births == [] && s.ledger == []
    && WellKeyed(s.sh.store)
    && (forall n :: n in s.sh.store ==> Dated(sys, s.sh.store[n], s.clock))
  }

  ghost predicate Behavior(sys: System, states: seq<State>, actions: seq<Action>) {
    && |states| == |actions| + 1
    && Init(sys, states[0])
    && forall i :: 0 <= i < |actions| ==>
         Enabled(sys, states[i], actions[i]) && states[i + 1] == Apply(sys, states[i], actions[i])
  }

  /** Tasks that run at the same time never share a target name or a scope: they never run at
      the same time, or the registry never holds two targets of one name or scope. */
  ghost predicate Separated(sys: System, states: seq<State>) {
    sys.Capacity() == 1 || forall i :: 0 <= i < |states| ==> Distinct(states[i].registry)
  }

  ghost predicate UniqueNames(targets: seq<Target>) {
    forall i, j :: 0 <= i < j < |targets| ==> targets[i].name != targets[j].name
  }

  /** Tasks that run at the same time never share a target name. */
  ghost predicate NamesSeparated(sys: System, states: seq<State>) {
    sys.Capacity() == 1 || forall i :: 0 <= i < |states| ==> UniqueNames(states[i].registry)
  }
}
