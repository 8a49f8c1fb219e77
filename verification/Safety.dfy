/** The deduplication invariant holds in every reachable state, and what follows from it. */
module Safety {
  import opened Text
  import opened Runs
  import opened Backoffs
  import opened Clients
  import opened Decisions
  import opened Tasks
  import opened Protocol
  import opened Concurrency
  import opened Dedup

  // ---------------------------------------------------------------- a task while others move

  /** The same run, possibly further on: what was terminal still is, with the same time. */
  ghost predicate Evolved(w: World, r: Run, later: Run) {
    && later.name == r.name && later.labels == r.labels && later.created == r.created
    && (IsActive(r, w.phaseOf) ||
        (!IsActive(later, w.phaseOf) && TerminalTime(later, w.phaseOf) == TerminalTime(r, w.phaseOf)))
  }

  ghost predicate StemsFrom(w: World, store: Store, archive: seq<Run>, later: Run) {
    exists r :: Known(store, archive, r) && Evolved(w, r, later)
  }

  ghost predicate SameWaits(t: Target, a: Table, b: Table) {
    forall fp :: |fp| == 8 ==>
      var key := BackoffKey(t.name, fp);
      (key in a <==> key in b) && (key in a ==> a[key] == b[key])
  }

  lemma EvolvedHandled(sys: System, t: Target, runs: seq<Run>, now: Time, later: Time, a: Table, b: Table,
                       pending: Option<string>, r: Run, r': Run)
    requires Handled(sys, t, runs, now, a, pending, r) && Evolved(sys.w, r, r') && now <= later
    requires a == map[] || (SameWaits(t, a, b) && now == later)
    ensures Handled(sys, t, runs, later, b, pending, r')
  {
    assert Group(r) == Group(r') && (WaitsFor(t, a, now, Group(r)) ==> WaitsFor(t, b, later, Group(r')));
    if HasCopy(sys.w, runs, r) {
      var c :| c in runs && CopyOf(sys.w, c, r);
      assert CopyOf(sys.w, c, r');
    }
  }

  lemma FrameHandled(sys: System, storeA: Store, archiveA: seq<Run>, storeB: Store, archiveB: seq<Run>, t: Target,
                     runs: seq<Run>, now: Time, later: Time, a: Table, b: Table, pending: Option<string>)
    requires AllHandled(sys, storeA, archiveA, t, runs, now, a, pending) && now <= later
    requires a == map[] || (SameWaits(t, a, b) && now == later)
    requires forall r :: Known(storeB, archiveB, r) && InScope(t.scope, r) ==> StemsFrom(sys.w, storeA, archiveA, r)
    ensures AllHandled(sys, storeB, archiveB, t, runs, later, b, pending)
  {
    forall r' | Known(storeB, archiveB, r') && InScope(t.scope, r')
      ensures Handled(sys, t, runs, later, b, pending, r')
    {
      assert StemsFrom(sys.w, storeA, archiveA, r');
      var r :| Known(storeA, archiveA, r) && Evolved(sys.w, r, r');
      EvolvedHandled(sys, t, runs, now, later, a, b, pending, r, r');
    }
  }

  /** A task's part of the invariant survives everything that only lets runs evolve, adds runs
      outside its scope, touches other targets' backoff keys or advances the clock. */
  lemma FrameTask(sys: System, a: Shared, archiveA: seq<Run>, clockA: Time, b: Shared, archiveB: seq<Run>, clockB: Time,
                  t: Target, task: Task)
    requires TaskSafe(sys, a, archiveA, clockA, t, task)
    requires clockA <= clockB && SameWaits(t, a.backoff, b.backoff)
    requires forall r :: Known(b.store, archiveB, r) && InScope(t.scope, r) ==> StemsFrom(sys.w, a.store, archiveA, r)
    ensures TaskSafe(sys, b, archiveB, clockB, t, task)
  {
    match task {
      case Stamping(_, runs) => FrameHandled(sys, a.store, archiveA, b.store, archiveB, t, runs, clockA, clockB, map[],
                                             map[], None);
      case Scanning(l) => FrameHandled(sys, a.store, archiveA, b.store, archiveB, t, l.runs, l.now, l.now, a.backoff,
                                       b.backoff, None);
      case Creating(l, p, _) =>
        FrameHandled(sys, a.store, archiveA, b.store, archiveB, t, l.runs, l.now, l.now, a.backoff, b.backoff, None);
      case Settling(l, sent, _, answer) =>
        FrameHandled(sys, a.store, archiveA, b.store, archiveB, t, l.runs, l.now, l.now, a.backoff, b.backoff,
                     Pending(sent, answer));
      case _ =>
    }
  }

  lemma SelfStems(w: World, store: Store, archive: seq<Run>, r: Run)
    requires Known(store, archive, r)
    ensures StemsFrom(w, store, archive, r)
  {
    assert Evolved(w, r, r);
  }

  // ---------------------------------------------------------------- work of one task

  /** What one step of a task does to the store: nothing, or one new active run in its scope. */
  lemma StepStore(sys: System, sh: Shared, archive: seq<Run>, clock: Time, t: Target, task: Task, inp: Input)
    requires sys.w.Valid() && TaskSafe(sys, sh, archive, clock, t, task) && inp.clock == clock
    ensures var (_, after) := Step(sys.w, sys.cfg, t, task, sh, inp);
            var born := Born(t, task, sh.store, inp);
            && (born == [] ==> after.store == sh.store)
            && (born != [] ==>
                  && born == [born[0]] && after.store == sh.store[born[0].name := born[0]] && born[0].name !in sh.store
                  && InScope(t.scope, born[0]) && born[0].created == clock && born[0].conditions == []
                  && task.Creating? && born[0] == Sent(t, task.run, clock)
                  && forall r :: Known(sh.store, archive, r) && InScope(t.scope, r) && Group(r) == Group(born[0]) ==>
                      Cooled(sys, r, task.l.now))
  {
    if task.Creating? && Born(t, task, sh.store, inp) != [] {
      var sent := Sent(t, task.run, clock);
      assert ProposalSafe(sys, sh, t, task.l, task.run);
      SentFacts(sys, sh, clock, t, task.l, task.run);
      forall r | Known(sh.store, archive, r) && InScope(t.scope, r) && Group(r) == Group(sent)
        ensures Cooled(sys, r, task.l.now)
      {
        ProposalIsCooled(sys, sh, archive, clock, t, task.l, task.run, r);
      }
    }
  }

  lemma StepBackoff(sys: System, sh: Shared, t: Target, task: Task, inp: Input, other: Target)
    requires task.Settling? ==> |Group(task.run)| == 8
    requires other.name != t.name
    ensures SameWaits(other, sh.backoff, Step(sys.w, sys.cfg, t, task, sh, inp).1.backoff)
  {
    if task.Settling? {
      forall fp | |fp| == 8
        ensures BackoffKey(other.name, fp) != BackoffKey(t.name, Group(task.run))
      {
        BackoffKeyInjective(other.name, fp, t.name, Group(task.run));
      }
    }
  }

  /** Of two tasks at work the targets differ in name and scope. */
  lemma WorkApart(sys: System, s: State, j: nat, k: nat)
    requires Disciplined(sys, s) && Separate(sys, s)
    requires j < |s.workers| && k < |s.workers| && j != k && s.workers[j].stage.Working? && s.workers[k].stage.Working?
    ensures s.workers[j].t.name != s.workers[k].t.name && s.workers[j].t.scope != s.workers[k].t.scope
  {
    if j < k { TwoHolders(s.workers, j, k); } else { TwoHolders(s.workers, k, j); }
    assert !s.main.Idle?;
    NoOverlap(sys, s, j, k);
  }

  lemma OtherTaskKept(sys: System, s: State, k: nat, inp: Input, j: nat)
    requires Safe(sys, s) && Enabled(sys, s, Work(k, inp))
    requires j < |s.workers| && j != k && s.workers[j].stage.Working?
    ensures var after := ApplyWork(sys, s, k, inp);
            TaskSafe(sys, after.sh, after.archive, after.clock, s.workers[j].t, s.workers[j].stage.task)
  {
    var t, task := s.workers[k].t, s.workers[k].stage.task;
    var other := s.workers[j].t;
    WorkApart(sys, s, j, k);
    StepStore(sys, s.sh, s.archive, s.clock, t, task, inp);
    StepBackoff(sys, s.sh, t, task, inp, other);
    var after := Step(sys.w, sys.cfg, t, task, s.sh, inp).1;
    forall r | Known(after.store, s.archive, r) && InScope(other.scope, r)
      ensures StemsFrom(sys.w, s.sh.store, s.archive, r)
    {
      if !Known(s.sh.store, s.archive, r) {
        assert InScope(t.scope, r);
        ScopesDisjoint(t.scope, other.scope, r);
        assert false;
      }
      SelfStems(sys.w, s.sh.store, s.archive, r);
    }
    FrameTask(sys, s.sh, s.archive, s.clock, after, s.archive, s.clock, other, s.workers[j].stage.task);
  }

  lemma WorkKeepsTasks(sys: System, s: State, k: nat, inp: Input)
    requires Safe(sys, s) && Enabled(sys, s, Work(k, inp))
    ensures TasksSafe(sys, ApplyWork(sys, s, k, inp))
  {
    var t, task := s.workers[k].t, s.workers[k].stage.task;
    var after := ApplyWork(sys, s, k, inp);
    OwnStep(sys, s.sh, s.archive, s.clock, t, task, inp);
    forall j | 0 <= j < |after.workers| && after.workers[j].stage.Working?
      ensures TaskSafe(sys, after.sh, after.archive, after.clock, after.workers[j].t, after.workers[j].stage.task)
    {
      if j != k { OtherTaskKept(sys, s, k, inp, j); }
    }
  }

  lemma WorkKeepsData(sys: System, s: State, k: nat, inp: Input)
    requires Safe(sys, s) && Enabled(sys, s, Work(k, inp))
    ensures DataSafe(sys, ApplyWork(sys, s, k, inp))
  {
    var t, task := s.workers[k].t, s.workers[k].stage.task;
    StepStore(sys, s.sh, s.archive, s.clock, t, task, inp);
    var born := Born(t, task, s.sh.store, inp);
    if born != [] {
      assert TerminalTime(born[0], sys.w.phaseOf) == None;
    }
  }

  // ---------------------------------------------------------------- the world's steps

  lemma OperatorEvolves(sys: System, clock: Time, r: Run, conditions: seq<Condition>)
    requires AllowedChange(sys.w, clock, r, conditions) && Dated(sys, r, clock)
    ensures Evolved(sys.w, r, r.(conditions := conditions)) && Dated(sys, r.(conditions := conditions), clock)
  {
  }

  lemma OperateKeepsData(sys: System, s: State, name: string, conditions: seq<Condition>)
    requires DataSafe(sys, s) && Enabled(sys, s, Operate(name, conditions))
    ensures DataSafe(sys, Apply(sys, s, Operate(name, conditions)))
  {
    var r, r' := s.sh.store[name], s.sh.store[name].(conditions := conditions);
    OperatorEvolves(sys, s.clock, r, conditions);
  }

  lemma OperateStems(sys: System, s: State, name: string, conditions: seq<Condition>, r: Run)
    requires DataSafe(sys, s) && Enabled(sys, s, Operate(name, conditions))
    requires Known(Apply(sys, s, Operate(name, conditions)).sh.store, s.archive, r)
    ensures StemsFrom(sys.w, s.sh.store, s.archive, r)
  {
    OperatorEvolves(sys, s.clock, s.sh.store[name], conditions);
    if r == s.sh.store[name].(conditions := conditions) {
      assert Known(s.sh.store, s.archive, s.sh.store[name]);
    } else {
      SelfStems(sys.w, s.sh.store, s.archive, r);
    }
  }

  lemma DeleteStems(sys: System, s: State, name: string, r: Run)
    requires DataSafe(sys, s) && Enabled(sys, s, Delete(name))
    requires Known(Apply(sys, s, Delete(name)).sh.store, Apply(sys, s, Delete(name)).archive, r)
    ensures StemsFrom(sys.w, s.sh.store, s.archive, r)
  {
    assert Known(s.sh.store, s.archive, r);
    SelfStems(sys.w, s.sh.store, s.archive, r);
  }

  lemma AppearStems(sys: System, s: State, b: Run, scope: string, r: Run)
    requires Enabled(sys, s, Appear(b)) && InScope(scope, r)
    requires Known(Apply(sys, s, Appear(b)).sh.store, s.archive, r)
    ensures StemsFrom(sys.w, s.sh.store, s.archive, r)
  {
    assert Known(s.sh.store, s.archive, r);
    SelfStems(sys.w, s.sh.store, s.archive, r);
  }

  predicate WorldAction(a: Action) {
    a.Operate? || a.Delete? || a.Appear? || a.Tick?
  }

  lemma WorldKeepsTasks(sys: System, s: State, a: Action)
    requires Safe(sys, s) && Enabled(sys, s, a) && WorldAction(a)
    ensures TasksSafe(sys, Apply(sys, s, a))
  {
    hide TaskSafe, Disciplined, Separate, AllowedChange, Dated, WellKeyed, InScope, StemsFrom, SameWaits, Known;
    var after := Apply(sys, s, a);
    assert after.workers == s.workers && after.sh.backoff == s.sh.backoff && s.clock <= after.clock;
    forall j | 0 <= j < |s.workers| && s.workers[j].stage.Working?
      ensures TaskSafe(sys, after.sh, after.archive, after.clock, s.workers[j].t, s.workers[j].stage.task)
    {
      var t := s.workers[j].t;
      forall r | Known(after.sh.store, after.archive, r) && InScope(t.scope, r)
        ensures StemsFrom(sys.w, s.sh.store, s.archive, r)
      {
        match a {
          case Operate(name, conditions) => OperateStems(sys, s, name, conditions, r);
          case Delete(name) => DeleteStems(sys, s, name, r);
          case Appear(b) => AppearStems(sys, s, b, t.scope, r);
          case Tick(_) => SelfStems(sys.w, s.sh.store, s.archive, r);
        }
      }
      FrameTask(sys, s.sh, s.archive, s.clock, after.sh, after.archive, after.clock, t, s.workers[j].stage.task);
    }
  }

  lemma WorldKeepsData(sys: System, s: State, a: Action)
    requires DataSafe(sys, s) && Enabled(sys, s, a) && WorldAction(a)
    ensures DataSafe(sys, Apply(sys, s, a))
  {
    match a {
      case Operate(name, conditions) => OperateKeepsData(sys, s, name, conditions);
      case Appear(r) => assert TerminalTime(r, sys.w.phaseOf) == None;
      case _ =>
    }
  }

  /** The remaining steps leave store, archive and clock alone, and add only idle workers. */
  lemma ControlKeeps(sys: System, s: State, a: Action)
    requires Safe(sys, s) && Enabled(sys, s, a) && !WorldAction(a) && !a.Work?
    ensures DataSafe(sys, Apply(sys, s, a)) && TasksSafe(sys, Apply(sys, s, a))
  {
    hide TaskSafe, Disciplined, Separate, Dated, WellKeyed, Cooled, Collected;
    assert forall t :: TaskSafe(sys, s.sh, s.archive, s.clock, t, Fetching) by {
      forall t ensures TaskSafe(sys, s.sh, s.archive, s.clock, t, Fetching) {
        FetchingSafe(sys, s.sh, s.archive, s.clock, t);
      }
    }
  }

  lemma FetchingSafe(sys: System, sh: Shared, archive: seq<Run>, clock: Time, t: Target)
    ensures TaskSafe(sys, sh, archive, clock, t, Fetching)
  {
  }

  lemma SeparateStep(sys: System, s: State, a: Action)
    requires Separate(sys, s) && Enabled(sys, s, a)
    requires sys.Capacity() == 1 || Distinct(Apply(sys, s, a).registry)
    ensures Separate(sys, Apply(sys, s, a))
  {
    hide Step, IsListing, AllowedChange, Cooled, Distinct, Born, Logged;
  }

  lemma SafeStep(sys: System, s: State, a: Action)
    requires Safe(sys, s) && Enabled(sys, s, a)
    requires sys.Capacity() == 1 || Distinct(Apply(sys, s, a).registry)
    ensures Safe(sys, Apply(sys, s, a))
  {
    DisciplinedStep(sys, s, a);
    SeparateStep(sys, s, a);
    if WorldAction(a) {
      WorldKeepsTasks(sys, s, a);
      WorldKeepsData(sys, s, a);
    } else if a.Work? {
      WorkKeepsTasks(sys, s, a.k, a.inp);
      WorkKeepsData(sys, s, a.k, a.inp);
    } else {
      ControlKeeps(sys, s, a);
    }
  }

  lemma {:induction false} AlwaysSafe(sys: System, states: seq<State>, actions: seq<Action>, i: nat)
    requires Behavior(sys, states, actions) && Separated(sys, states) && i < |states|
    ensures Safe(sys, states[i])
  {
    if i > 0 {
      AlwaysSafe(sys, states, actions, i - 1);
      SafeStep(sys, states[i - 1], actions[i - 1]);
    }
  }

  // ---------------------------------------------------------------- what the world may do

  /** At any moment time may pass, the process may be cancelled or restarted, the targets may
      change, any run may be deleted, and a run of other origin may appear under a free name. */
  lemma WorldIsFree(sys: System, s: State, clock: Time, targets: seq<Target>, name: string, r: Run)
    ensures Enabled(sys, s, Cancel) && Apply(sys, s, Cancel) == s.(cancelled := true)
    ensures Enabled(sys, s, Retarget(targets)) && Apply(sys, s, Retarget(targets)) == s.(registry := targets)
    ensures clock >= s.clock ==> Enabled(sys, s, Tick(clock)) && Apply(sys, s, Tick(clock)) == s.(clock := clock)
    ensures name in s.sh.store ==>
              Enabled(sys, s, Delete(name)) && Apply(sys, s, Delete(name)).sh.store == s.sh.store - {name}
    ensures r.name !in s.sh.store && r.conditions == [] && r.created == s.clock
            && ("agentic.openshift.io/source" in r.labels ==> r.labels["agentic.openshift.io/source"] != "alertmanager")
            ==>
              Enabled(sys, s, Appear(r)) && Apply(sys, s, Appear(r)).sh.store == s.sh.store[r.name := r]
    ensures Enabled(sys, s, Restart)
    ensures var after := Apply(sys, s, Restart);
            && after.main.Idle? && after.workers == [] && after.sh == Shared(s.sh.store, map[])
            && after.clock == s.clock && after.registry == s.registry && !after.cancelled
  {
  }

  /** At any moment the operator may give an active run any conditions, as long as a condition that
      ends it changed between its creation and now, and a terminal run any others that leave it
      terminal and ended at the same time. */
  lemma OperatorIsFree(sys: System, s: State, name: string, conditions: seq<Condition>)
    requires name in s.sh.store
    requires var r, phase := s.sh.store[name], sys.w.phaseOf(conditions);
             var terminal := {Completed, Failed, Denied, Escalated, EmergencyStopped};
             if sys.w.phaseOf(r.conditions) in terminal
             then phase in terminal && (forall t :: EndTime(sys.w, r.conditions, t) <==> EndTime(sys.w, conditions, t))
             else forall t :: EndTime(sys.w, conditions, t) ==> r.created <= t <= s.clock
    ensures Enabled(sys, s, Operate(name, conditions))
    ensures Apply(sys, s, Operate(name, conditions)).sh.store ==
            s.sh.store[name := s.sh.store[name].(conditions := conditions)]
  {
    var r := s.sh.store[name];
    var after := r.(conditions := conditions);
    EndTimeIs(sys.w, r);
    EndTimeIs(sys.w, after);
    ActiveIff(r, sys.w.phaseOf);
    ActiveIff(after, sys.w.phaseOf);
    hide EndTime, TerminalTime;
    var t, u := TerminalTime(r, sys.w.phaseOf), TerminalTime(after, sys.w.phaseOf);
    assert t.Some? ==> EndTime(sys.w, r.conditions, t.value);
    assert u.Some? ==> EndTime(sys.w, conditions, u.value);
  }

  /** A run with these conditions ended at this time. */
  ghost predicate EndTime(w: World, conditions: seq<Condition>, t: Time) {
    exists i :: EndedBy(conditions, w.phaseOf(conditions), i) && conditions[i].lastTransition == t
  }

  lemma EndTimeIs(w: World, r: Run)
    ensures forall t :: EndTime(w, r.conditions, t) <==> TerminalTime(r, w.phaseOf) == Some(t)
  {
    forall t ensures EndTime(w, r.conditions, t) <==> TerminalTime(r, w.phaseOf) == Some(t) {
      TerminalTimeIs(r, w.phaseOf, t);
    }
  }

  // ---------------------------------------------------------------- one active run

  lemma NewRunUnique(w: World, store: Store, r: Run, home: string, scope: string, fp: string)
    requires UniqueActive(w, store, scope, fp) && r.name !in store && InScope(home, r)
    requires forall n :: n in store && InScope(home, store[n]) && Group(store[n]) == Group(r) ==>
        !IsActive(store[n], w.phaseOf)
    ensures UniqueActive(w, store[r.name := r], scope, fp)
  {
    if InScope(scope, r) { ScopesDisjoint(scope, home, r); }
  }

  lemma WorkKeepsUnique(sys: System, s: State, k: nat, inp: Input, scope: string, fp: string)
    requires Safe(sys, s) && Enabled(sys, s, Work(k, inp)) && UniqueActive(sys.w, s.sh.store, scope, fp)
    ensures UniqueActive(sys.w, ApplyWork(sys, s, k, inp).sh.store, scope, fp)
  {
    var t, task := s.workers[k].t, s.workers[k].stage.task;
    StepStore(sys, s.sh, s.archive, s.clock, t, task, inp);
    var born := Born(t, task, s.sh.store, inp);
    if born != [] {
      forall n | n in s.sh.store && InScope(t.scope, s.sh.store[n]) && Group(s.sh.store[n]) == Group(born[0])
        ensures !IsActive(s.sh.store[n], sys.w.phaseOf)
      {
        assert Known(s.sh.store, s.archive, s.sh.store[n]);
      }
      NewRunUnique(sys.w, s.sh.store, born[0], t.scope, scope, fp);
    }
  }

  lemma ChangeKeepsUnique(w: World, store: Store, name: string, conditions: seq<Condition>, scope: string, fp: string)
    requires name in store && UniqueActive(w, store, scope, fp)
    requires IsActive(store[name].(conditions := conditions), w.phaseOf) ==> IsActive(store[name], w.phaseOf)
    ensures UniqueActive(w, store[name := store[name].(conditions := conditions)], scope, fp)
  {
    var r' := store[name].(conditions := conditions);
    assert InScope(scope, r') == InScope(scope, store[name]) && Group(r') == Group(store[name]);
    hide InScope, Group, IsActive;
  }

  /** The operator makes no terminal run active again, and nothing else activates a run. */
  lemma OthersKeepUnique(sys: System, s: State, a: Action, scope: string, fp: string)
    requires Enabled(sys, s, a) && !a.Work? && UniqueActive(sys.w, s.sh.store, scope, fp)
    ensures UniqueActive(sys.w, Apply(sys, s, a).sh.store, scope, fp)
  {
    hide Cooled, Collected, TerminalTime, InScope, Group, IsActive;
    if a.Operate? {
      ChangeKeepsUnique(sys.w, s.sh.store, a.name, a.conditions, scope, fp);
    } else if a.Appear? {
      ForeignUnseen(scope, a.run);
    }
  }

  lemma StepKeepsUnique(sys: System, s: State, a: Action, scope: string, fp: string)
    requires Safe(sys, s) && Enabled(sys, s, a) && UniqueActive(sys.w, s.sh.store, scope, fp)
    ensures UniqueActive(sys.w, Apply(sys, s, a).sh.store, scope, fp)
  {
    if a.Work? {
      WorkKeepsUnique(sys, s, a.k, a.inp, scope, fp);
    } else {
      OthersKeepUnique(sys, s, a, scope, fp);
    }
  }

  // ---------------------------------------------------------------- the theorems

  /** Once a target scope and group has at most one active run it never has two again: over all
      cycles, interleavings, operator steps, deletions of any run, restarts, and create calls
      that were applied although they reported an error.  `Separated` cannot be dropped: it is the
      exact condition (Collisions.DeduplicationIff), which for a registry is the one that
      Targets.SnapshotDistinct spells out. */
  lemma {:induction false} OneActivePerGroup(sys: System, states: seq<State>, actions: seq<Action>, i: nat, j: nat,
                                             scope: string, fp: string)
    requires Behavior(sys, states, actions) && Separated(sys, states) && i <= j < |states|
    requires UniqueActive(sys.w, states[i].sh.store, scope, fp)
    ensures UniqueActive(sys.w, states[j].sh.store, scope, fp)
  {
    hide UniqueActive, Safe, Enabled, Apply, Init, Separated;
    if i < j {
      OneActivePerGroup(sys, states, actions, i, j - 1, scope, fp);
      AlwaysSafe(sys, states, actions, j - 1);
      StepKeepsUnique(sys, states[j - 1], actions[j - 1], scope, fp);
    }
  }

  /** In every reachable state no more goroutines work than configured (one at least), a token is
      to be had at a select with targets left exactly when fewer are held, and the goroutines of a
      cycle serve the first targets of its snapshot, one each; so no two, done or
      not, serve targets of one name or scope when the snapshot has no two such targets.  Between
      cycles nothing is left running.  A cycle that can return has nothing running and, without
      cancellation, has served each target of its snapshot once. */
  lemma TargetTasksDisciplined(sys: System, states: seq<State>, actions: seq<Action>, i: nat)
    requires Behavior(sys, states, actions) && i < |states|
    ensures var s := states[i];
            var limit := if sys.maxConcurrentTargets < 1 then 1 else sys.maxConcurrentTargets;
            && |AtWorkSet(s.workers)| <= s.tokens <= limit
            && (s.main.Select? && s.main.k < |s.main.targets| ==> (Enabled(sys, s, Acquire) <==> s.tokens < limit))
            && (!s.main.Idle? ==>
                  |s.workers| <= |Snapshot(s.main)| && forall k :: 0 <= k < |s.workers| ==>
                      s.workers[k].t == Snapshot(s.main)[k])
            && (!s.main.Idle? && Distinct(Snapshot(s.main)) ==>
                  forall j, k :: 0 <= j < |s.workers| && 0 <= k < |s.workers| && j != k ==>
                    s.workers[j].t.name != s.workers[k].t.name && s.workers[j].t.scope != s.workers[k].t.scope)
            && (s.main.Idle? ==> forall k :: 0 <= k < |s.workers| ==> s.workers[k].stage.Gone?)
            && (Enabled(sys, s, Return) ==>
                  && s.tokens == 0 && (forall k :: 0 <= k < |s.workers| ==> s.workers[k].stage.Gone?)
                  && (!s.cancelled ==> |s.workers| == |s.main.targets|))
  {
    AlwaysDisciplined(sys, states, actions, i);
    var s := states[i];
    assert s.main.Idle? ==> Started(s);
    forall j, k | !s.main.Idle? && Distinct(Snapshot(s.main)) && 0 <= j < |s.workers| && 0 <= k < |s.workers| && j != k
      ensures s.workers[j].t.name != s.workers[k].t.name && s.workers[j].t.scope != s.workers[k].t.scope
    {
      NoOverlap(sys, s, j, k);
    }
    HoldersAre(s.workers);
    if Enabled(sys, s, Return) { ReturnIsQuiet(sys, s); }
  }

  /** In every reachable state of a cycle a step of the cycle can be taken; each such step
      decreases a pair of naturals, and short of a restart nothing else changes the pair of a
      running cycle, its snapshot or its tasks: cycles end. */
  lemma CyclesEnd(sys: System, states: seq<State>, actions: seq<Action>, i: nat)
    requires Behavior(sys, states, actions) && i < |states|
    ensures !states[i].main.Idle? ==> exists a :: CycleAction(a) && Enabled(sys, states[i], a)
    ensures i < |actions| && CycleAction(actions[i]) ==> Smaller(states[i + 1], states[i])
    ensures i < |actions| && !states[i].main.Idle? && !CycleAction(actions[i]) && !actions[i].Restart? ==>
              && Unfetched(states[i + 1]) == Unfetched(states[i]) && Remaining(states[i + 1]) == Remaining(states[i])
              && states[i + 1].main == states[i].main && states[i + 1].workers == states[i].workers
  {
    AlwaysDisciplined(sys, states, actions, i);
    AlwaysInRange(sys, states, actions, i);
    if !states[i].main.Idle? { var a := DeadlockFree(sys, states[i]); }
    if i < |actions| {
      assert Enabled(sys, states[i], actions[i]);
      if CycleAction(actions[i]) {
        CycleStepDecreases(sys, states[i], actions[i]);
      } else if !states[i].main.Idle? && !actions[i].Restart? {
        WorldKeepsMeasure(sys, states[i], actions[i]);
      }
    }
  }

  /** Whenever a step creates a run, every run of its scope and group that was ever stored, and
      not deleted while active or within its cooldown, is in a terminal phase, and with a positive
      postRunDelay the condition that ended it, if it has one, changed at least postRunDelay ago. */
  lemma CreationAfterCooldown(sys: System, states: seq<State>, actions: seq<Action>, i: nat, t: Target, b: Run, r: Run)
    requires Behavior(sys, states, actions) && Separated(sys, states) && i < |actions| &&
        Creates(states[i], actions[i], t, b)
    requires Known(states[i].sh.store, states[i].archive, r) && InScope(t.scope, r) && Group(r) == Group(b)
    ensures Cooled(sys, r, states[i].clock)
    ensures var phase := sys.w.phaseOf(r.conditions);
            && phase in {Completed, Failed, Denied, Escalated, EmergencyStopped}
            && forall k :: sys.cfg.postRunDelay > 0 && EndedBy(r.conditions, phase, k) ==>
                 r.conditions[k].lastTransition + sys.cfg.postRunDelay <= states[i].clock
  {
    AlwaysSafe(sys, states, actions, i);
    assert Enabled(sys, states[i], actions[i]);
    CreationIsCooled(sys, states[i], actions[i], t, b, r);
    CooledMeans(sys, r, states[i].clock);
  }

  lemma CooledMeans(sys: System, r: Run, at: Time)
    ensures Cooled(sys, r, at) <==>
            var phase := sys.w.phaseOf(r.conditions);
            && phase in {Completed, Failed, Denied, Escalated, EmergencyStopped}
            && forall k :: sys.cfg.postRunDelay > 0 && EndedBy(r.conditions, phase, k) ==>
                 r.conditions[k].lastTransition + sys.cfg.postRunDelay <= at
  {
    ActiveIff(r, sys.w.phaseOf);
    EndedWithin(r, at, sys.cfg.postRunDelay, sys.w.phaseOf);
  }

  lemma CreationIsCooled(sys: System, s: State, a: Action, t: Target, b: Run, r: Run)
    requires Safe(sys, s) && Enabled(sys, s, a) && Creates(s, a, t, b)
    requires Known(s.sh.store, s.archive, r) && InScope(t.scope, r) && Group(r) == Group(b)
    ensures Cooled(sys, r, s.clock)
  {
    var task := s.workers[a.k].stage.task;
    StepStore(sys, s.sh, s.archive, s.clock, t, task, a.inp);
    assert Cooled(sys, r, task.l.now);
    assert task.l.now <= s.clock;
  }
}
