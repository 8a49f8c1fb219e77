/** The semaphore, the wait group and the poll loop: bounded tokens, no overlap, no deadlock,
    and a measure that every step of a cycle decreases. */
module Concurrency {
  import opened Text
  import opened Clients
  import opened Decisions
  import opened Tasks
  import opened Protocol

  // ---------------------------------------------------------------- counting workers

  function One(b: bool): nat {
    if b then 1 else 0
  }

  /** Goroutines that still hold their token. */
  function HoldCount(ws: seq<Worker>): nat {
    if ws == [] then 0 else HoldCount(ws[..|ws| - 1]) + One(ws[|ws| - 1].stage.Working?)
  }

  /** Goroutines the wait group still waits for. */
  function LiveCount(ws: seq<Worker>): nat {
    if ws == [] then 0 else LiveCount(ws[..|ws| - 1]) + One(!ws[|ws| - 1].stage.Gone?)
  }

  lemma {:induction false} CountsUpdate(ws: seq<Worker>, k: nat, wk: Worker)
    requires k < |ws|
    ensures HoldCount(ws[k := wk]) == HoldCount(ws) - One(ws[k].stage.Working?) + One(wk.stage.Working?)
    ensures LiveCount(ws[k := wk]) == LiveCount(ws) - One(!ws[k].stage.Gone?) + One(!wk.stage.Gone?)
    ensures HoldCount(ws) >= One(ws[k].stage.Working?) && LiveCount(ws) >= One(!ws[k].stage.Gone?)
  {
    var n := |ws| - 1;
    var after := ws[k := wk];
    if k == n {
      assert after[..n] == ws[..n];
    } else {
      assert after[..n] == ws[..n][k := wk];
      CountsUpdate(ws[..n], k, wk);
    }
  }

  /** The goroutines that reconcile a target right now. */
  ghost function AtWorkSet(ws: seq<Worker>): set<int> {
    set k | 0 <= k < |ws| && ws[k].stage.Working?
  }

  lemma {:induction false} HoldersAre(ws: seq<Worker>)
    ensures HoldCount(ws) == |AtWorkSet(ws)|
  {
    if ws != [] {
      var n := |ws| - 1;
      HoldersAre(ws[..n]);
      assert AtWorkSet(ws) == AtWorkSet(ws[..n]) + if ws[n].stage.Working? then {n} else {};
    } else {
      assert AtWorkSet(ws) == {};
    }
  }

  lemma CountsAppend(ws: seq<Worker>, wk: Worker)
    ensures HoldCount(ws + [wk]) == HoldCount(ws) + One(wk.stage.Working?)
    ensures LiveCount(ws + [wk]) == LiveCount(ws) + One(!wk.stage.Gone?)
  {
    assert (ws + [wk])[..|ws|] == ws;
  }

  lemma {:induction false} NoneLive(ws: seq<Worker>)
    ensures LiveCount(ws) == 0 <==> forall k :: 0 <= k < |ws| ==> ws[k].stage.Gone?
    ensures HoldCount(ws) <= LiveCount(ws)
  {
    if ws != [] { NoneLive(ws[..|ws| - 1]); }
  }

  /** Two goroutines that hold tokens hold two. */
  lemma {:induction false} TwoHolders(ws: seq<Worker>, i: nat, j: nat)
    requires i < j < |ws| && ws[i].stage.Working? && ws[j].stage.Working?
    ensures HoldCount(ws) >= 2
  {
    var init := ws[..|ws| - 1];
    if j < |init| {
      TwoHolders(init, i, j);
    } else {
      CountsUpdate(init, i, init[i]);
    }
  }

  /** A positive count has a witness. */
  lemma {:induction false} SomeHolder(ws: seq<Worker>) returns (k: nat)
    requires HoldCount(ws) > 0
    ensures k < |ws| && ws[k].stage.Working?
  {
    k := |ws| - 1;
    if !ws[k].stage.Working? { k := SomeHolder(ws[..|ws| - 1]); }
  }

  lemma {:induction false} SomeLive(ws: seq<Worker>) returns (k: nat)
    requires LiveCount(ws) > 0
    ensures k < |ws| && !ws[k].stage.Gone?
  {
    k := |ws| - 1;
    if ws[k].stage.Gone? { k := SomeLive(ws[..|ws| - 1]); }
  }

  // ---------------------------------------------------------------- the invariant

  function Snapshot(m: Main): seq<Target>
    requires !m.Idle?
  {
    m.targets
  }

  /** The workers of a cycle are the first targets of its snapshot, one each. */
  ghost predicate Started(s: State) {
    match s.main
    case Idle => forall k :: 0 <= k < |s.workers| ==> s.workers[k].stage.Gone?
    case Select(ts, k) => |s.workers| == k <= |ts|
    case Holding(ts, k) => |s.workers| == k < |ts|
    case Waiting(ts) => |s.workers| <= |ts| && (!s.cancelled ==> |s.workers| == |ts|)
  }

  ghost predicate Disciplined(sys: System, s: State) {
    && Started(s)
    && (!s.main.Idle? ==> forall k :: 0 <= k < |s.workers| && k < |Snapshot(s.main)| ==>
        s.workers[k].t == Snapshot(s.main)[k])
    && s.tokens == HoldCount(s.workers) + One(s.main.Holding?)
    && s.wg == LiveCount(s.workers)
    && s.tokens <= sys.Capacity()
  }

  lemma WorkerStageStep(sys: System, s: State, k: nat, wk: Worker, tokens: nat, wg: nat)
    requires Disciplined(sys, s) && k < |s.workers| && wk.t == s.workers[k].t
    requires s.workers[k].stage.Gone? ==> wk.stage.Gone?
    requires tokens == s.tokens - One(s.workers[k].stage.Working?) + One(wk.stage.Working?)
    requires wg == s.wg - One(!s.workers[k].stage.Gone?) + One(!wk.stage.Gone?)
    requires tokens <= s.tokens
    ensures Disciplined(sys, s.(workers := s.workers[k := wk], tokens := tokens, wg := wg))
  {
    CountsUpdate(s.workers, k, wk);
  }

  /** A poll starts a cycle exactly when the suspension state was read and is off; the cycle then
      works on the registry's targets with nothing held, and an entry of the backoff table is
      dropped exactly when it is more than twenty minutes old.  Otherwise the poll does nothing. */
  lemma PollStarts(sys: System, s: State, suspended: Option<bool>)
    requires Enabled(sys, s, Poll(suspended))
    ensures var after := Apply(sys, s, Poll(suspended));
            && (suspended == None || suspended == Some(true) ==> after == s)
            && (suspended == Some(false) ==>
                  && after.main == Select(s.registry, 0) && after.workers == [] && after.tokens == 0 && after.wg == 0
                  && after.sh.store == s.sh.store
                  && forall key :: key in after.sh.backoff <==>
                       key in s.sh.backoff && s.clock - s.sh.backoff[key].lastUpdate <= 20 * 60_000_000_000)
    ensures forall key :: key in Apply(sys, s, Poll(suspended)).sh.backoff ==>
              Apply(sys, s, Poll(suspended)).sh.backoff[key] == s.sh.backoff[key]
  {
  }

  predicate MainAction(a: Action) {
    a.Acquire? || a.Abort? || a.LoopEnd? || a.Return?
  }

  lemma DisciplinedStep(sys: System, s: State, a: Action)
    requires Disciplined(sys, s) && Enabled(sys, s, a)
    ensures Disciplined(sys, Apply(sys, s, a))
  {
    if MainAction(a) {
      MainStep(sys, s, a);
    } else if a.Poll? {
      PollStep(sys, s, a.suspended);
    } else if a.Launch? {
      LaunchStep(sys, s);
    } else if a.Work? || a.Release? || a.Done? {
      WorkerStep(sys, s, a);
    } else {
      WorldStep(sys, s, a);
    }
  }

  lemma MainStep(sys: System, s: State, a: Action)
    requires Disciplined(sys, s) && Enabled(sys, s, a) && MainAction(a)
    ensures Disciplined(sys, Apply(sys, s, a))
  {
    NoneLive(s.workers);
  }

  lemma PollStep(sys: System, s: State, suspended: Option<bool>)
    requires Disciplined(sys, s) && Enabled(sys, s, Poll(suspended))
    ensures Disciplined(sys, Apply(sys, s, Poll(suspended)))
  {
    assert HoldCount([]) == LiveCount([]) == 0 by { CountsEmpty(); }
  }

  lemma LaunchStep(sys: System, s: State)
    requires Disciplined(sys, s) && Enabled(sys, s, Launch)
    ensures Disciplined(sys, Apply(sys, s, Launch))
  {
    CountsAppend(s.workers, Worker(s.main.targets[s.main.k], Working(Fetching)));
  }

  lemma WorkerStep(sys: System, s: State, a: Action)
    requires Disciplined(sys, s) && Enabled(sys, s, a) && (a.Work? || a.Release? || a.Done?)
    ensures Disciplined(sys, Apply(sys, s, a))
  {
    hide Step, IsListing, Sent, Disciplined;
    match a {
      case Work(k, inp) =>
        var t, task := s.workers[k].t, s.workers[k].stage.task;
        var next := Step(sys.w, sys.cfg, t, task, s.sh, inp).0;
        WorkerStageStep(sys, s, k, Worker(t, Working(next)), s.tokens, s.wg);
        SharedIrrelevant(sys, s.(workers := s.workers[k := Worker(t, Working(next))]), Apply(sys, s, a));
      case Release(k) => WorkerStageStep(sys, s, k, s.workers[k].(stage := Unwound), s.tokens - 1, s.wg);
      case Done(k) => WorkerStageStep(sys, s, k, s.workers[k].(stage := Gone), s.tokens, s.wg - 1);
    }
  }

  /** Two states with the same control part. */
  ghost predicate SameControl(a: State, b: State) {
    a.main == b.main && a.workers == b.workers && a.tokens == b.tokens && a.wg == b.wg &&
    a.registry == b.registry && a.cancelled == b.cancelled
  }

  lemma SharedIrrelevant(sys: System, a: State, b: State)
    requires Disciplined(sys, a) && SameControl(a, b)
    ensures Disciplined(sys, b)
  {
  }

  lemma WorldStep(sys: System, s: State, a: Action)
    requires Disciplined(sys, s) && Enabled(sys, s, a)
    requires a.Operate? || a.Delete? || a.Appear? || a.Tick? || a.Cancel? || a.Retarget? || a.Restart?
    ensures Disciplined(sys, Apply(sys, s, a))
  {
    assert HoldCount([]) == LiveCount([]) == 0 by { CountsEmpty(); }
  }

  lemma CountsEmpty()
    ensures HoldCount([]) == LiveCount([]) == 0
  {
  }

  /** When the poll loop returns, every goroutine is done and the semaphore is empty; without
      cancellation each target of the snapshot has had exactly one. */
  lemma ReturnIsQuiet(sys: System, s: State)
    requires Disciplined(sys, s) && Enabled(sys, s, Return)
    ensures forall k :: 0 <= k < |s.workers| ==> s.workers[k].stage.Gone?
    ensures s.tokens == 0
    ensures !s.cancelled ==> |s.workers| == |s.main.targets| && forall k :: 0 <= k < |s.workers| ==>
        s.workers[k].t == s.main.targets[k]
  {
    NoneLive(s.workers);
  }

  /** Within a cycle no two goroutines serve targets of the same name or scope, done or not,
      when the snapshot has no two such targets. */
  lemma NoOverlap(sys: System, s: State, i: nat, j: nat)
    requires Disciplined(sys, s) && i < |s.workers| && j < |s.workers| && i != j
    requires !s.main.Idle? && Distinct(Snapshot(s.main))
    ensures s.workers[i].t.name != s.workers[j].t.name && s.workers[i].t.scope != s.workers[j].t.scope
  {
    var ts := Snapshot(s.main);
    assert s.workers[i].t == ts[i] && s.workers[j].t == ts[j];
  }

  // ---------------------------------------------------------------- progress

  /** The steps of the adapter itself within a cycle. */
  predicate CycleAction(a: Action) {
    a.Acquire? || a.Launch? || a.Abort? || a.LoopEnd? || a.Return? || a.Work? || a.Release? || a.Done?
  }

  /** Until a cycle has returned, one of its steps can be taken, whatever the world does. */
  lemma DeadlockFree(sys: System, s: State) returns (a: Action)
    requires Disciplined(sys, s) && !s.main.Idle?
    ensures CycleAction(a) && Enabled(sys, s, a)
  {
    match s.main {
      case Select(ts, k) =>
        if k == |ts| { return LoopEnd; }
        if s.tokens < sys.Capacity() { return Acquire; }
        var h := SomeHolder(s.workers);
        a := WorkerAction(sys, s, h);
      case Holding(_, _) => a := Launch;
      case Waiting(_) =>
        if s.wg == 0 { return Return; }
        var h := SomeLive(s.workers);
        a := WorkerAction(sys, s, h);
    }
  }

  lemma WorkerAction(sys: System, s: State, k: nat) returns (a: Action)
    requires Disciplined(sys, s) && k < |s.workers| && !s.workers[k].stage.Gone?
    ensures CycleAction(a) && Enabled(sys, s, a)
  {
    CountsUpdate(s.workers, k, s.workers[k]);
    match s.workers[k].stage {
      case Working(task) =>
        a := if task.Finished? then Release(k) else Work(k, Input(None, None, s.clock, false, NoFault));
      case Unwound => a := Done(k);
    }
  }

  // ---------------------------------------------------------------- termination

  /** Steps left in a task once its alerts are known. */
  function TaskWeight(task: Task): nat {
    match task
    case Fetching => 0
    case Listing(alerts) => 3 * |alerts| + 5
    case Stamping(alerts, _) => 3 * |alerts| + 4
    case Scanning(l) => if l.i < |l.alerts| then 3 * (|l.alerts| - l.i) + 3 else 3
    case Creating(l, _, _) => if l.i < |l.alerts| then 3 * (|l.alerts| - l.i) + 2 else 5
    case Settling(l, _, _, _) => if l.i < |l.alerts| then 3 * (|l.alerts| - l.i) + 1 else 4
    case Finished(_) => 2
  }

  function StageWeight(g: Stage): nat {
    match g
    case Working(task) => TaskWeight(task)
    case Unwound => 1
    case Gone => 0
  }

  function Weights(ws: seq<Worker>): nat {
    if ws == [] then 0 else Weights(ws[..|ws| - 1]) + StageWeight(ws[|ws| - 1].stage)
  }

  predicate IsFetching(wk: Worker) {
    wk.stage.Working? && wk.stage.task.Fetching?
  }

  function Fetchers(ws: seq<Worker>): nat {
    if ws == [] then 0 else Fetchers(ws[..|ws| - 1]) + One(IsFetching(ws[|ws| - 1]))
  }

  lemma {:induction false} WeightsUpdate(ws: seq<Worker>, k: nat, wk: Worker)
    requires k < |ws|
    ensures Weights(ws[k := wk]) == Weights(ws) - StageWeight(ws[k].stage) + StageWeight(wk.stage)
    ensures Fetchers(ws[k := wk]) == Fetchers(ws) - One(IsFetching(ws[k])) + One(IsFetching(wk))
  {
    var n := |ws| - 1;
    var after := ws[k := wk];
    if k == n {
      assert after[..n] == ws[..n];
    } else {
      assert after[..n] == ws[..n][k := wk];
      WeightsUpdate(ws[..n], k, wk);
    }
  }

  lemma WeightsAppend(ws: seq<Worker>, wk: Worker)
    ensures Weights(ws + [wk]) == Weights(ws) + StageWeight(wk.stage)
    ensures Fetchers(ws + [wk]) == Fetchers(ws) + One(IsFetching(wk))
  {
    assert (ws + [wk])[..|ws|] == ws;
  }

  /** Tasks whose number of alerts is still unknown. */
  function Unfetched(s: State): nat {
    Fetchers(s.workers) +
    match s.main
    case Select(ts, k) => if k < |ts| then |ts| - k else 0
    case Holding(ts, k) => if k < |ts| then |ts| - k else 0
    case _ => 0
  }

  /** Steps left apart from what those tasks will find. */
  function Remaining(s: State): nat {
    Weights(s.workers) +
    match s.main
    case Idle => 0
    case Select(ts, k) => if k < |ts| then 2 * (|ts| - k) + 2 else 2
    case Holding(ts, k) => if k < |ts| then 2 * (|ts| - k) + 1 else 1
    case Waiting(_) => 1
  }

  ghost predicate Smaller(after: State, before: State) {
    Unfetched(after) < Unfetched(before) ||
        (Unfetched(after) == Unfetched(before) && Remaining(after) < Remaining(before))
  }

  /** A task that is past its alert list stays inside it. */
  ghost predicate InRange(task: Task) {
    match task
    case Scanning(l) => l.i <= |l.alerts|
    case Creating(l, _, _) => l.i < |l.alerts|
    case Settling(l, _, _, _) => l.i < |l.alerts|
    case _ => true
  }

  lemma TaskStepShrinks(sys: System, t: Target, task: Task, sh: Shared, inp: Input)
    requires InRange(task) && !task.Finished? && !task.Fetching?
    ensures TaskWeight(Step(sys.w, sys.cfg, t, task, sh, inp).0) < TaskWeight(task)
    ensures !Step(sys.w, sys.cfg, t, task, sh, inp).0.Fetching?
  {
  }

  lemma FetchingStep(sys: System, t: Target, sh: Shared, inp: Input)
    ensures !Step(sys.w, sys.cfg, t, Fetching, sh, inp).0.Fetching?
  {
  }

  ghost predicate AllInRange(s: State) {
    forall k :: 0 <= k < |s.workers| && s.workers[k].stage.Working? ==> InRange(s.workers[k].stage.task)
  }

  lemma AllInRangeStep(sys: System, s: State, a: Action)
    requires AllInRange(s) && Enabled(sys, s, a)
    ensures AllInRange(Apply(sys, s, a))
  {
    assert InRange(Fetching) by { FetchingInRange(); }
  }

  lemma {:induction false} AlwaysDisciplined(sys: System, states: seq<State>, actions: seq<Action>, i: nat)
    requires Behavior(sys, states, actions) && i < |states|
    ensures Disciplined(sys, states[i])
  {
    if i > 0 {
      AlwaysDisciplined(sys, states, actions, i - 1);
      DisciplinedStep(sys, states[i - 1], actions[i - 1]);
    }
  }

  lemma SnapshotStep(sys: System, s: State, a: Action)
    requires Enabled(sys, s, a) && !Apply(sys, s, a).main.Idle?
    ensures var after := Apply(sys, s, a).main;
            Snapshot(after) == s.registry || (!s.main.Idle? && Snapshot(after) == Snapshot(s.main))
  {
    hide Step, IsListing, AllowedChange, Cooled, Born, Logged;
  }

  /** The snapshot of a running cycle is what the registry held at some moment. */
  lemma {:induction false} AlwaysSnapshot(sys: System, states: seq<State>, actions: seq<Action>, i: nat)
    requires Behavior(sys, states, actions) && i < |states|
    ensures !states[i].main.Idle? ==> exists j :: 0 <= j <= i && Snapshot(states[i].main) == states[j].registry
  {
    if i > 0 && !states[i].main.Idle? {
      AlwaysSnapshot(sys, states, actions, i - 1);
      SnapshotStep(sys, states[i - 1], actions[i - 1]);
    }
  }

  lemma {:induction false} AlwaysInRange(sys: System, states: seq<State>, actions: seq<Action>, i: nat)
    requires Behavior(sys, states, actions) && i < |states|
    ensures AllInRange(states[i])
  {
    if i == 0 {
      assert AllInRange(states[0]) by { InitInRange(sys, states[0]); }
    } else {
      AlwaysInRange(sys, states, actions, i - 1);
      AllInRangeStep(sys, states[i - 1], actions[i - 1]);
    }
  }

  lemma InitInRange(sys: System, s: State)
    requires Init(sys, s)
    ensures AllInRange(s)
  {
  }

  lemma FetchingInRange()
    ensures InRange(Fetching)
  {
  }

  /** Every step of a cycle decreases a pair of naturals, so a cycle has finitely many. */
  lemma CycleStepDecreases(sys: System, s: State, a: Action)
    requires Disciplined(sys, s) && AllInRange(s) && CycleAction(a) && Enabled(sys, s, a)
    ensures Smaller(Apply(sys, s, a), s)
  {
    match a {
      case Launch => LaunchDecreases(sys, s);
      case Work(k, inp) => WorkDecreases(sys, s, k, inp);
      case Release(k) => UnwindDecreases(sys, s, k);
      case Done(k) => UnwindDecreases(sys, s, k);
      case _ =>
    }
  }

  /** Nothing the world does in between gives a cycle more steps to take. */
  lemma WorldKeepsMeasure(sys: System, s: State, a: Action)
    requires Enabled(sys, s, a)
    requires a.Operate? || a.Delete? || a.Appear? || a.Tick? || a.Cancel? || a.Retarget?
    ensures Unfetched(Apply(sys, s, a)) == Unfetched(s) && Remaining(Apply(sys, s, a)) == Remaining(s)
    ensures Apply(sys, s, a).workers == s.workers && Apply(sys, s, a).main == s.main
  {
  }

  lemma UnwindDecreases(sys: System, s: State, k: nat)
    ensures Enabled(sys, s, Release(k)) ==> Smaller(Apply(sys, s, Release(k)), s)
    ensures Enabled(sys, s, Done(k)) ==> Smaller(Apply(sys, s, Done(k)), s)
  {
    if k < |s.workers| {
      WeightsUpdate(s.workers, k, s.workers[k].(stage := Unwound));
      WeightsUpdate(s.workers, k, s.workers[k].(stage := Gone));
    }
  }

  lemma LaunchDecreases(sys: System, s: State)
    requires Disciplined(sys, s) && Enabled(sys, s, Launch)
    ensures Smaller(Apply(sys, s, Launch), s)
  {
    WeightsAppend(s.workers, Worker(s.main.targets[s.main.k], Working(Fetching)));
  }

  lemma WorkDecreases(sys: System, s: State, k: nat, inp: Input)
    requires AllInRange(s) && Enabled(sys, s, Work(k, inp))
    ensures Smaller(Apply(sys, s, Work(k, inp)), s)
  {
    var t, task := s.workers[k].t, s.workers[k].stage.task;
    var next := Step(sys.w, sys.cfg, t, task, s.sh, inp).0;
    WeightsUpdate(s.workers, k, Worker(t, Working(next)));
    if task.Fetching? {
      FetchingStep(sys, t, s.sh, inp);
    } else {
      TaskStepShrinks(sys, t, task, s.sh, inp);
    }
  }
}
