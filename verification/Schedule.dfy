/** The backoff schedule over whole histories: when the system lets a group try again. */
module Schedule {
  import opened Runs
  import opened Backoffs
  import opened Clients
  import opened Decisions
  import opened Tasks
  import opened Protocol
  import opened Concurrency
  import opened Safety

  /** The clock reading a task works with, once it has one. */
  function NowOf(task: Task, clock: Time): Time {
    match task
    case Scanning(l) => l.now
    case Creating(l, _, _) => l.now
    case Settling(l, _, _, _) => l.now
    case _ => clock
  }

  // ---------------------------------------------------------------- tasks and their group's entry

  /** A task that has decided to call still finds its group out of backoff, and what it saw of the
      group's entry is still so when its call settles. */
  ghost predicate TaskHeld(backoff: Table, clock: Time, t: Target, task: Task) {
    && NowOf(task, clock) <= clock
    && (task.Creating? ==>
        && |Group(task.run)| == 8 && !InBackoff(backoff, BackoffKey(t.name, Group(task.run)), task.l.now)
        && (task.seen <==> BackoffKey(t.name, Group(task.run)) in backoff))
    && (task.Settling? ==> |Group(task.run)| == 8 && (task.seen <==> BackoffKey(t.name, Group(task.run)) in backoff))
  }

  ghost predicate Held(s: State) {
    forall k :: 0 <= k < |s.workers| && s.workers[k].stage.Working? ==>
      TaskHeld(s.sh.backoff, s.clock, s.workers[k].t, s.workers[k].stage.task)
  }

  lemma OwnHeld(sys: System, sh: Shared, t: Target, task: Task, inp: Input)
    requires TaskHeld(sh.backoff, inp.clock, t, task)
    ensures var (next, after) := Step(sys.w, sys.cfg, t, task, sh, inp);
            TaskHeld(after.backoff, inp.clock, t, next)
  {
    match task {
      case Scanning(l) =>
        if l.i < |l.alerts| {
          var v := Gate(sys.w, sys.cfg, t, l, sh.backoff);
          if v.Propose? { BuiltGroup(sys, t, l.alerts[l.i], l.runs, l.now); }
        }
      case Creating(_, p, _) => SentGroup(t, p, inp.clock);
      case _ =>
    }
  }

  lemma BuiltGroup(sys: System, t: Target, a: Alert, runs: seq<Run>, now: Time)
    requires Judge(sys.w, sys.cfg, t, a, runs, now).Propose?
    ensures Group(Judge(sys.w, sys.cfg, t, a, runs, now).run) == GroupOf(sys.w, sys.cfg, a)
  {
    BuiltFacts(sys.w, a, GroupOf(sys.w, sys.cfg, a), t.id);
  }

  lemma SentGroup(t: Target, p: Run, clock: Time)
    ensures Group(Sent(t, p, clock)) == Group(p)
  {
    LabelKeysDiffer();
  }

  lemma OtherHeld(a: Table, b: Table, clock: Time, t: Target, task: Task)
    requires TaskHeld(a, clock, t, task) && SameWaits(t, a, b)
    ensures TaskHeld(b, clock, t, task)
  {
  }

  /** Of two tasks at work the target names differ. */
  lemma NamesApartAtWork(sys: System, s: State, j: nat, k: nat)
    requires Disciplined(sys, s) && (sys.Capacity() == 1 || (!s.main.Idle? ==> UniqueNames(Snapshot(s.main))))
    requires j < |s.workers| && k < |s.workers| && j != k && s.workers[j].stage.Working? && s.workers[k].stage.Working?
    ensures s.workers[j].t.name != s.workers[k].t.name
  {
    if j < k { TwoHolders(s.workers, j, k); } else { TwoHolders(s.workers, k, j); }
    assert !s.main.Idle?;
    var ts := Snapshot(s.main);
    assert s.workers[j].t == ts[j] && s.workers[k].t == ts[k];
  }

  lemma WorkHeld(sys: System, s: State, k: nat, inp: Input)
    requires Held(s) && Enabled(sys, s, Work(k, inp))
    requires Disciplined(sys, s) && (sys.Capacity() == 1 || (!s.main.Idle? ==> UniqueNames(Snapshot(s.main))))
    ensures Held(ApplyWork(sys, s, k, inp))
  {
    var t, task := s.workers[k].t, s.workers[k].stage.task;
    var after := ApplyWork(sys, s, k, inp);
    OwnHeld(sys, s.sh, t, task, inp);
    forall j | 0 <= j < |after.workers| && after.workers[j].stage.Working?
      ensures TaskHeld(after.sh.backoff, after.clock, after.workers[j].t, after.workers[j].stage.task)
    {
      if j != k {
        NamesApartAtWork(sys, s, j, k);
        StepBackoff(sys, s.sh, t, task, inp, s.workers[j].t);
        OtherHeld(s.sh.backoff, after.sh.backoff, s.clock, s.workers[j].t, s.workers[j].stage.task);
      }
    }
  }

  lemma HeldStep(sys: System, s: State, a: Action)
    requires Held(s) && Enabled(sys, s, a)
    requires Disciplined(sys, s) && (sys.Capacity() == 1 || (!s.main.Idle? ==> UniqueNames(Snapshot(s.main))))
    ensures Held(Apply(sys, s, a))
  {
    hide Step, Logged, Born, IsListing, AllowedChange, Cooled, Disciplined, InBackoff, Collected;
    match a {
      case Work(k, inp) => WorkHeld(sys, s, k, inp);
      case _ =>
    }
  }

  lemma {:induction false} AlwaysHeld(sys: System, states: seq<State>, actions: seq<Action>, i: nat)
    requires Behavior(sys, states, actions) && NamesSeparated(sys, states) && i < |states|
    ensures Held(states[i])
  {
    if i > 0 {
      AlwaysHeld(sys, states, actions, i - 1);
      AlwaysDisciplined(sys, states, actions, i - 1);
      AlwaysSnapshot(sys, states, actions, i - 1);
      HeldStep(sys, states[i - 1], actions[i - 1]);
    }
  }

  // ---------------------------------------------------------------- the ledger of answers

  /** The answers explain the table, and no collection is later than a clock reading in use. */
  ghost predicate Ledgered(s: State) {
    && Replay(s.ledger) == s.sh.backoff
    && InOrder(s.ledger)
    && NotBeforeCollections(s.ledger, s.clock)
    && forall k :: 0 <= k < |s.workers| && s.workers[k].stage.Working? ==>
         NotBeforeCollections(s.ledger, NowOf(s.workers[k].stage.task, s.clock))
  }

  lemma ReplayAppend(events: seq<Event>, more: seq<Event>)
    ensures more == [] ==> Replay(events + more) == Replay(events)
    ensures |more| == 1 ==> Replay(events + more) == Applied(Replay(events), more[0])
  {
    if more == [] {
      assert events + more == events;
    } else if |more| == 1 {
      assert (events + more)[..|events|] == events;
    }
  }

  lemma OrderAppend(events: seq<Event>, e: Event)
    requires InOrder(events)
    requires e.Failure? ==> NotBeforeCollections(events, e.at)
    ensures InOrder(events + [e])
  {
    var all := events + [e];
    forall i, j | 0 <= i < j < |all| && all[i].Collection? && all[j].Failure? ensures all[i].at <= all[j].at {
      assert all[i] == events[i];
      if j < |events| { assert all[j] == events[j]; }
    }
  }

  lemma CollectionsAppend(events: seq<Event>, e: Event, at: Time)
    requires NotBeforeCollections(events, at) && (e.Collection? ==> e.at <= at)
    ensures NotBeforeCollections(events + [e], at)
  {
    var all := events + [e];
    forall i | 0 <= i < |all| && all[i].Collection? ensures all[i].at <= at {
      if i < |events| { assert all[i] == events[i]; }
    }
  }

  /** A step's effect on the table is the event it logs. */
  lemma StepLogged(sys: System, sh: Shared, t: Target, task: Task, inp: Input)
    requires TaskHeld(sh.backoff, inp.clock, t, task)
    ensures var logged := Logged(t, task, inp);
            var after := Step(sys.w, sys.cfg, t, task, sh, inp).1.backoff;
            && |logged| <= 1
            && (logged == [] ==> after == sh.backoff)
            && (logged != [] ==> after == Applied(sh.backoff, logged[0]) && !logged[0].Collection? && task.Settling?
                                 && (logged[0].Failure? ==> logged[0].at == task.l.now))
  {
  }

  lemma StepNow(sys: System, sh: Shared, t: Target, task: Task, inp: Input)
    ensures NowOf(Step(sys.w, sys.cfg, t, task, sh, inp).0, inp.clock) == NowOf(task, inp.clock) ||
            NowOf(Step(sys.w, sys.cfg, t, task, sh, inp).0, inp.clock) == inp.clock
  {
  }

  lemma WorkLedgered(sys: System, s: State, k: nat, inp: Input)
    requires Ledgered(s) && Held(s) && Enabled(sys, s, Work(k, inp))
    ensures Ledgered(ApplyWork(sys, s, k, inp))
  {
    var t, task := s.workers[k].t, s.workers[k].stage.task;
    var after := ApplyWork(sys, s, k, inp);
    StepLogged(sys, s.sh, t, task, inp);
    StepNow(sys, s.sh, t, task, inp);
    var logged := Logged(t, task, inp);
    ReplayAppend(s.ledger, logged);
    if logged == [] {
      assert after.ledger == s.ledger;
    } else {
      assert logged == [logged[0]];
      assert NotBeforeCollections(s.ledger, NowOf(task, s.clock));
      OrderAppend(s.ledger, logged[0]);
      forall at | NotBeforeCollections(s.ledger, at) ensures NotBeforeCollections(after.ledger, at) {
        CollectionsAppend(s.ledger, logged[0], at);
      }
    }
  }

  lemma LedgeredStep(sys: System, s: State, a: Action)
    requires Ledgered(s) && Held(s) && Enabled(sys, s, a)
    ensures Ledgered(Apply(sys, s, a))
  {
    hide Step, Logged, Born, IsListing, AllowedChange, Cooled;
    match a {
      case Work(k, inp) => WorkLedgered(sys, s, k, inp);
      case Poll(_) =>
        ReplayAppend(s.ledger, [Collection(s.clock)]);
        OrderAppend(s.ledger, Collection(s.clock));
        CollectionsAppend(s.ledger, Collection(s.clock), s.clock);
      case _ =>
    }
  }

  lemma {:induction false} AlwaysLedgered(sys: System, states: seq<State>, actions: seq<Action>, i: nat)
    requires Behavior(sys, states, actions) && NamesSeparated(sys, states) && i < |states|
    ensures Ledgered(states[i])
  {
    if i > 0 {
      AlwaysLedgered(sys, states, actions, i - 1);
      AlwaysHeld(sys, states, actions, i - 1);
      LedgeredStep(sys, states[i - 1], actions[i - 1]);
    }
  }

  /** Task `k` is about to decide on an alert that passes all other checks. */
  ghost predicate Deciding(sys: System, s: State, k: nat, l: Loop) {
    && k < |s.workers| && s.workers[k].stage == Working(Scanning(l)) && l.i < |l.alerts|
    && Judge(sys.w, sys.cfg, s.workers[k].t, l.alerts[l.i], l.runs, l.now).Propose?
  }

  /** It will call exactly when at least min(2^(k-1), 10) minutes have passed since the k-th of
      the group's create calls in a row that failed, or the last one did not fail. */
  ghost predicate DecidesOnTime(sys: System, s: State, k: nat, l: Loop)
    requires Deciding(sys, s, k, l)
  {
    var t := s.workers[k].t;
    var streak := StreakOf(s.ledger, KeyOf(sys.w, sys.cfg, t, l.alerts[l.i]));
    Scanned(sys.w, sys.cfg, t, l, s.sh.backoff).Creating? <==>
    streak.count == 0 || l.now - streak.last >= Wait(streak.count)
  }

  /** In every reachable state attempts follow the schedule that the answers to earlier calls
      set; neither garbage collection nor what a task remembers of the table plays a part. */
  lemma AttemptsFollowSchedule(sys: System, states: seq<State>, actions: seq<Action>, i: nat, k: nat, l: Loop)
    requires Behavior(sys, states, actions) && NamesSeparated(sys, states) && i < |states|
    requires Deciding(sys, states[i], k, l)
    ensures DecidesOnTime(sys, states[i], k, l)
  {
    AlwaysLedgered(sys, states, actions, i);
    var s := states[i];
    assert NotBeforeCollections(s.ledger, NowOf(Scanning(l), s.clock));
    BackoffIsSchedule(s.ledger, KeyOf(sys.w, sys.cfg, s.workers[k].t, l.alerts[l.i]), l.now);
  }

  // ---------------------------------------------------------------- create calls

  /** At least min(2^(k-1), 10) minutes have passed since the k-th failure in a row of the group
      that task `k` is about to create a run for. */
  ghost predicate CallSpaced(s: State, k: nat)
    requires k < |s.workers| && s.workers[k].stage.Working? && s.workers[k].stage.task.Creating?
  {
    var streak := StreakOf(s.ledger, BackoffKey(s.workers[k].t.name, Group(s.workers[k].stage.task.run)));
    streak.count > 0 ==> s.clock >= streak.last + Wait(streak.count)
  }

  /** Every create call is spaced, whatever happened since its task decided to call, as long as
      tasks that overlap have targets of different names; scopes do not matter. */
  lemma CreateCallsSpaced(sys: System, states: seq<State>, actions: seq<Action>, i: nat, k: nat)
    requires Behavior(sys, states, actions) && NamesSeparated(sys, states) && i < |states|
    requires k < |states[i].workers| && states[i].workers[k].stage.Working? && states[i].workers[k].stage.task.Creating?
    ensures CallSpaced(states[i], k)
  {
    AlwaysHeld(sys, states, actions, i);
    AlwaysLedgered(sys, states, actions, i);
    var s := states[i];
    var task := s.workers[k].stage.task;
    assert TaskHeld(s.sh.backoff, s.clock, s.workers[k].t, task);
    BackoffIsSchedule(s.ledger, BackoffKey(s.workers[k].t.name, Group(task.run)), task.l.now);
  }
}
