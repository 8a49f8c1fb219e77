/** Why targets need distinct names and scopes: for a fixed set of targets, deduplication is
    guaranteed exactly when they have them, or when tasks never overlap. */
module Collisions {
  import opened Text
  import opened Names
  import opened Runs
  import opened Backoffs
  import opened Clients
  import opened Decisions
  import opened Tasks
  import opened Protocol
  import opened Dedup
  import opened Safety
  import opened Schedule
  import opened Targets
  import opened Examples

  // ---------------------------------------------------------------- the guarantee

  ghost predicate Fixed(states: seq<State>, ts: seq<Target>) {
    forall i :: 0 <= i < |states| ==> states[i].registry == ts
  }

  /** While the targets are `ts`, no behavior ever gives a scope and group a second active run. */
  ghost predicate Guarantees(sys: System, ts: seq<Target>) {
    forall states: seq<State>, actions: seq<Action>, scope: string, fp: string ::
      Behavior(sys, states, actions) && Fixed(states, ts) && UniqueActive(sys.w, states[0].sh.store, scope, fp)
      ==> UniqueActive(sys.w, states[|states| - 1].sh.store, scope, fp)
  }

  /** While the targets are `ts`, whenever a run is created every run of its scope and group that
      was ever stored, and not deleted early, is terminal and past its cooldown. */
  ghost predicate Cools(sys: System, ts: seq<Target>) {
    forall states: seq<State>, actions: seq<Action>, i: nat, t: Target, b: Run, r: Run ::
      Behavior(sys, states, actions) && Fixed(states, ts) && i < |actions| &&
          CreatesAmong(states[i], actions[i], t, b, r)
      ==> Cooled(sys, r, states[i].clock)
  }

  /** The step creates `b`, and `r` is a known run of its scope and group. */
  ghost predicate CreatesAmong(s: State, a: Action, t: Target, b: Run, r: Run) {
    Creates(s, a, t, b) && Known(s.sh.store, s.archive, r) && InScope(t.scope, r) && Group(r) == Group(b)
  }

  ghost predicate Calling(s: State, k: nat) {
    k < |s.workers| && s.workers[k].stage.Working? && s.workers[k].stage.task.Creating?
  }

  /** While the targets are `ts`, no create call comes before its group's backoff has passed. */
  ghost predicate Spaces(sys: System, ts: seq<Target>) {
    forall states: seq<State>, actions: seq<Action>, i: nat, k: nat ::
      Behavior(sys, states, actions) && Fixed(states, ts) && i < |states| && Calling(states[i], k)
      ==> CallSpaced(states[i], k)
  }

  /** While the targets are `ts`, attempts follow the schedule that answers to earlier calls set. */
  ghost predicate OnTime(sys: System, ts: seq<Target>) {
    forall states: seq<State>, actions: seq<Action>, i: nat, k: nat, l: Loop ::
      Behavior(sys, states, actions) && Fixed(states, ts) && i < |states| && Deciding(sys, states[i], k, l)
      ==> DecidesOnTime(sys, states[i], k, l)
  }

  /** An alert that gets a run when nothing of its group is around. */
  ghost predicate Fires(w: World, cfg: Config, a: Alert) {
    Reaches(a, cfg, w.lower) && a.fingerprint.Some? && a.startsAt.Some? && w.renders(a)
  }

  ghost predicate ToldApart(w: World, ts: seq<Target>, x: Alert, y: Alert)
    requires x.startsAt.Some? && y.startsAt.Some?
  {
    forall t, u :: t in ts && u in ts ==>
        BaseName(w, x, x.startsAt.value, t.id) != BaseName(w, y, y.startsAt.value, u.id)
  }

  ghost predicate Trio(w: World, cfg: Config, ts: seq<Target>, x: Alert, y: Alert, z: Alert) {
    && Fires(w, cfg, x) && Fires(w, cfg, y) && Fires(w, cfg, z)
    && GroupOf(w, cfg, x) == GroupOf(w, cfg, y) == GroupOf(w, cfg, z)
    && ToldApart(w, ts, x, y) && ToldApart(w, ts, x, z) && ToldApart(w, ts, y, z)
  }

  /** Alerts do arise: some group can fire three times under different run names. */
  ghost predicate Rich(w: World, cfg: Config, ts: seq<Target>) {
    exists x, y, z :: Trio(w, cfg, ts, x, y, z)
  }

  // ---------------------------------------------------------------- reachable states

  /** The adapter just started on an empty store. */
  function Boot(ts: seq<Target>, clock: Time): State {
    State(Idle, [], 0, 0, Shared(map[], map[]), clock, ts, false, [], [], [], [])
  }

  ghost predicate Trace(sys: System, ts: seq<Target>, t0: Time, states: seq<State>, actions: seq<Action>) {
    Behavior(sys, states, actions) && Fixed(states, ts) && states[0] == Boot(ts, t0)
  }

  ghost predicate Reachable(sys: System, ts: seq<Target>, t0: Time, s: State) {
    exists states, actions :: Trace(sys, ts, t0, states, actions) && states[|states| - 1] == s
  }

  lemma ReachBoot(sys: System, ts: seq<Target>, t0: Time)
    requires sys.w.Valid()
    ensures Reachable(sys, ts, t0, Boot(ts, t0))
  {
    var states: seq<State>, actions: seq<Action> := [Boot(ts, t0)], [];
    assert Trace(sys, ts, t0, states, actions);
  }

  /** One more step at the end of a behavior that reaches the state. */
  lemma StepTrace(sys: System, ts: seq<Target>, t0: Time, s: State, a: Action)
    returns (states: seq<State>, actions: seq<Action>)
    requires Reachable(sys, ts, t0, s) && Enabled(sys, s, a) && Apply(sys, s, a).registry == ts
    ensures Trace(sys, ts, t0, states, actions) && |actions| > 0
    ensures states[|actions| - 1] == s && actions[|actions| - 1] == a && states[|actions|] == Apply(sys, s, a)
  {
    hide Enabled, Apply, Init;
    var before: seq<State>, acts: seq<Action> :| Trace(sys, ts, t0, before, acts) && before[|before| - 1] == s;
    states, actions := before + [Apply(sys, s, a)], acts + [a];
    forall i | 0 <= i < |actions|
      ensures Enabled(sys, states[i], actions[i]) && states[i + 1] == Apply(sys, states[i], actions[i])
    {
      if i < |acts| {
        assert states[i] == before[i] && states[i + 1] == before[i + 1] && actions[i] == acts[i];
      }
    }
  }

  lemma ReachStep(sys: System, ts: seq<Target>, t0: Time, s: State, a: Action)
    requires Reachable(sys, ts, t0, s) && Enabled(sys, s, a) && Apply(sys, s, a).registry == ts
    ensures Reachable(sys, ts, t0, Apply(sys, s, a))
  {
    hide Enabled, Apply, Init;
    var states, actions := StepTrace(sys, ts, t0, s, a);
  }

  /** The second state differs from the first in one task at work and in what tasks share. */
  ghost predicate Moved(s: State, s': State, k: nat, task: Task, sh: Shared) {
    && k < |s.workers|
    && s'.workers == s.workers[k := Worker(s.workers[k].t, Working(task))]
    && s'.main == s.main && s'.tokens == s.tokens && s'.wg == s.wg
    && s'.clock == s.clock && s'.registry == s.registry && s'.sh == sh
  }

  ghost predicate AtWork(s: State, k: nat, t: Target, task: Task) {
    k < |s.workers| && s.workers[k] == Worker(t, Working(task))
  }

  lemma Go(sys: System, ts: seq<Target>, t0: Time, s: State, k: nat, t: Target, task: Task, inp: Input)
    returns (s': State)
    requires Reachable(sys, ts, t0, s) && s.registry == ts && AtWork(s, k, t, task)
    requires Enabled(sys, s, Work(k, inp))
    ensures Reachable(sys, ts, t0, s')
    ensures var (next, sh) := Step(sys.w, sys.cfg, t, task, s.sh, inp); Moved(s, s', k, next, sh)
    ensures s'.ledger == s.ledger + Logged(t, task, inp)
  {
    ReachStep(sys, ts, t0, s, Work(k, inp));
    s' := Apply(sys, s, Work(k, inp));
  }

  // ---------------------------------------------------------------- the poll loop

  ghost predicate Selecting(sys: System, ts: seq<Target>, t0: Time, s: State, k: nat) {
    && Reachable(sys, ts, t0, s) && s.registry == ts
    && s.main == Select(ts, k) && k <= |ts| && |s.workers| == k
  }

  /** Starts the next target's task. */
  lemma Begin(sys: System, ts: seq<Target>, t0: Time, s: State, k: nat) returns (s': State)
    requires Selecting(sys, ts, t0, s, k) && k < |ts| && s.tokens < sys.Capacity()
    ensures Selecting(sys, ts, t0, s', k + 1)
    ensures s' == s.(main := Select(ts, k + 1), workers := s.workers + [Worker(ts[k], Working(Fetching))],
                     tokens := s.tokens + 1, wg := s.wg + 1)
  {
    hide Reachable;
    ReachStep(sys, ts, t0, s, Acquire);
    var held := Apply(sys, s, Acquire);
    ReachStep(sys, ts, t0, held, Launch);
    s' := Apply(sys, held, Launch);
  }

  /** Lets a task that has finished return its token and end. */
  lemma End(sys: System, ts: seq<Target>, t0: Time, s: State, k: nat) returns (s': State)
    requires Reachable(sys, ts, t0, s) && s.registry == ts
    requires k < |s.workers| && s.workers[k].stage.Working? && s.workers[k].stage.task.Finished?
    requires s.tokens > 0 && s.wg > 0
    ensures Reachable(sys, ts, t0, s')
    ensures s' == s.(workers := s.workers[k := Worker(s.workers[k].t, Gone)], tokens := s.tokens - 1, wg := s.wg - 1)
  {
    hide Reachable;
    ReachStep(sys, ts, t0, s, Release(k));
    var unwound := Apply(sys, s, Release(k));
    ReachStep(sys, ts, t0, unwound, Done(k));
    s' := Apply(sys, unwound, Done(k));
    assert s'.workers == s.workers[k := Worker(s.workers[k].t, Gone)];
  }

  function Plain(alerts: Option<seq<Alert>>, listed: Option<seq<Run>>, clock: Time, fault: Fault): Input {
    Input(alerts, listed, clock, false, fault)
  }

  /** Targets whose alerts cannot be read come and go without effect. */
  lemma {:induction false} SkipTo(sys: System, ts: seq<Target>, t0: Time, s: State, k: nat, n: nat) returns (s': State)
    requires Selecting(sys, ts, t0, s, k) && k <= n <= |ts| && s.tokens < sys.Capacity()
    ensures Selecting(sys, ts, t0, s', n)
    ensures s'.workers[..k] == s.workers && s'.tokens == s.tokens && s'.wg == s.wg && s'.sh == s.sh &&
        s'.clock == s.clock
    decreases n - k
  {
    hide Reachable, Apply, Enabled;
    if k == n {
      s' := s;
    } else {
      var begun := Begin(sys, ts, t0, s, k);
      var inp := Plain(None, None, s.clock, NoFault);
      assert Enabled(sys, begun, Work(k, inp)) by { CanFetch(sys, begun, k, ts[k], inp); }
      var over := Go(sys, ts, t0, begun, k, ts[k], Fetching, inp);
      var next := End(sys, ts, t0, over, k);
      assert next.workers[..k] == s.workers;
      s' := SkipTo(sys, ts, t0, next, k + 1, n);
      assert s'.workers[..k] == s'.workers[..k + 1][..k];
    }
  }

  lemma CanFetch(sys: System, s: State, k: nat, t: Target, inp: Input)
    requires AtWork(s, k, t, Fetching) && inp.clock == s.clock
    ensures Enabled(sys, s, Work(k, inp))
  {
  }

  // ---------------------------------------------------------------- one task among others

  ghost predicate Ripe(sys: System, a: Alert, now: Time) {
    Fires(sys.w, sys.cfg, a) && now - a.startsAt.value >= sys.cfg.preRunDelay
  }

  /** The run built for the alert as long as no run of its group is listed. */
  ghost function Proposal(sys: System, t: Target, a: Alert): Run
    requires Fires(sys.w, sys.cfg, a)
  {
    BuildWith(sys.w, a, GroupOf(sys.w, sys.cfg, a), t.id).value
  }

  lemma RipeIsProposed(sys: System, t: Target, a: Alert, now: Time)
    requires Ripe(sys, a, now)
    ensures Judge(sys.w, sys.cfg, t, a, [], now) == Propose(Proposal(sys, t, a))
  {
    VerdictIff(sys.w, sys.cfg, t, a, [], now);
  }

  /** What the store holds once the proposal has been applied. */
  lemma SentIsActive(sys: System, t: Target, a: Alert, clock: Time)
    requires sys.w.Valid() && Fires(sys.w, sys.cfg, a)
    ensures var sent := Sent(t, Proposal(sys, t, a), clock);
            && sent.name == BaseName(sys.w, a, a.startsAt.value, t.id)
            && InScope(t.scope, sent) && Group(sent) == GroupOf(sys.w, sys.cfg, a) && IsActive(sent, sys.w.phaseOf)
  {
    var now := a.startsAt.value + sys.cfg.preRunDelay;
    RipeIsProposed(sys, t, a, now);
    ProposalFacts(sys.w, sys.cfg, t, a, [], now, clock);
  }

  function Opened(alerts: seq<Alert>, clock: Time): Task {
    Scanning(Start(alerts, [], clock))
  }

  /** A task reads its alerts, lists no run, and looks at the clock. */
  lemma Open(sys: System, ts: seq<Target>, t0: Time, s: State, k: nat, t: Target, alerts: seq<Alert>)
    returns (s': State)
    requires Reachable(sys, ts, t0, s) && s.registry == ts && AtWork(s, k, t, Fetching)
    requires IsListing(s.sh.store, t.scope, [])
    ensures Reachable(sys, ts, t0, s') && Moved(s, s', k, Opened(alerts, s.clock), s.sh)
  {
    hide Reachable;
    var inp := Plain(Some(alerts), Some([]), s.clock, NoFault);
    var s1 := Go(sys, ts, t0, s, k, t, Fetching, inp);
    var s2 := Go(sys, ts, t0, s1, k, t, Listing(alerts), inp);
    s' := Go(sys, ts, t0, s2, k, t, Stamping(alerts, []), inp);
    assert s'.workers == s.workers[k := Worker(t, Working(Opened(alerts, s.clock)))];
  }

  /** A task decides to create a run for its current alert. */
  lemma Decide(sys: System, ts: seq<Target>, t0: Time, s: State, k: nat, t: Target, l: Loop) returns (s': State)
    requires Reachable(sys, ts, t0, s) && s.registry == ts && AtWork(s, k, t, Scanning(l))
    requires l.i < |l.alerts| && l.runs == [] && Ripe(sys, l.alerts[l.i], l.now)
    requires !InBackoff(s.sh.backoff, KeyOf(sys.w, sys.cfg, t, l.alerts[l.i]), l.now)
    ensures Reachable(sys, ts, t0, s')
    ensures Moved(s, s', k, Creating(l, Proposal(sys, t, l.alerts[l.i]),
                                     SeenBefore(s.sh.backoff, KeyOf(sys.w, sys.cfg, t, l.alerts[l.i]))), s.sh)
  {
    hide Reachable;
    RipeIsProposed(sys, t, l.alerts[l.i], l.now);
    s' := Go(sys, ts, t0, s, k, t, Scanning(l), Plain(None, None, s.clock, NoFault));
  }

  /** The create call is served. */
  lemma Serve(sys: System, ts: seq<Target>, t0: Time, s: State, k: nat, t: Target, l: Loop, p: Run, seen: bool,
              fault: Fault)
    returns (s': State)
    requires Reachable(sys, ts, t0, s) && s.registry == ts && AtWork(s, k, t, Creating(l, p, seen))
    ensures Reachable(sys, ts, t0, s')
    ensures var sent := Sent(t, p, s.clock);
            var (store, answer) := ServeCreate(s.sh.store, sent, fault);
            Moved(s, s', k, Settling(l, sent, seen, answer), s.sh.(store := store))
  {
    hide Reachable;
    s' := Go(sys, ts, t0, s, k, t, Creating(l, p, seen), Plain(None, None, s.clock, fault));
  }

  /** The task takes note of the answer. */
  lemma Settle(sys: System, ts: seq<Target>, t0: Time, s: State, k: nat, t: Target, l: Loop, sent: Run, seen: bool,
               answer: Answer)
    returns (s': State)
    requires Reachable(sys, ts, t0, s) && s.registry == ts && AtWork(s, k, t, Settling(l, sent, seen, answer))
    ensures Reachable(sys, ts, t0, s')
    ensures Moved(s, s', k, Scanning(SettledLoop(l, sent, answer)),
                  s.sh.(backoff := SettledBackoff(s.sh.backoff, BackoffKey(t.name, Group(sent)), l.now, seen, answer,
                                                  s.clock)))
    ensures s'.ledger == s.ledger + Logged(t, Settling(l, sent, seen, answer), Plain(None, None, s.clock, NoFault))
  {
    hide Reachable;
    s' := Go(sys, ts, t0, s, k, t, Settling(l, sent, seen, answer), Plain(None, None, s.clock, NoFault));
  }

  // ---------------------------------------------------------------- two targets of one scope

  /** From the start of a cycle to the point where the tasks of targets `i` and `j` have begun. */
  lemma BeginTwo(sys: System, ts: seq<Target>, t0: Time, s: State, i: nat, j: nat) returns (s': State)
    requires Selecting(sys, ts, t0, s, 0) && i < j < |ts| && s.tokens == 0 && sys.Capacity() >= 2
    ensures Reachable(sys, ts, t0, s') && s'.registry == ts && s'.sh == s.sh && s'.clock == s.clock
    ensures AtWork(s', i, ts[i], Fetching) && AtWork(s', j, ts[j], Fetching)
  {
    hide Reachable;
    var s1 := SkipTo(sys, ts, t0, s, 0, i);
    var s2 := Begin(sys, ts, t0, s1, i);
    var s3 := SkipTo(sys, ts, t0, s2, i + 1, j);
    assert s3.workers[..i + 1][i] == s2.workers[i];
    s' := Begin(sys, ts, t0, s3, j);
  }

  /** The poll loop starts a cycle. */
  lemma PollNow(sys: System, ts: seq<Target>, t0: Time, s: State) returns (s': State)
    requires Reachable(sys, ts, t0, s) && s.registry == ts && s.main.Idle?
    ensures Selecting(sys, ts, t0, s', 0) && s'.tokens == 0 && s'.wg == 0 && s'.clock == s.clock
    ensures s'.sh == s.sh.(backoff := Collected(s.sh.backoff, s.clock))
  {
    hide Reachable;
    ReachStep(sys, ts, t0, s, Poll(Some(false)));
    s' := Apply(sys, s, Poll(Some(false)));
  }

  /** Two stored runs of the scope and group are active. */
  ghost predicate Doubled(sys: System, store: Store, scope: string, a: Run, b: Run) {
    && a.name in store && b.name in store && a.name != b.name
    && store[a.name] == a && store[b.name] == b
    && InScope(scope, a) && InScope(scope, b) && Group(a) == Group(b)
    && IsActive(a, sys.w.phaseOf) && IsActive(b, sys.w.phaseOf)
  }

  lemma DoubledBreaks(sys: System, ts: seq<Target>, t0: Time, s: State, scope: string, a: Run, b: Run)
    requires Reachable(sys, ts, t0, s) && Doubled(sys, s.sh.store, scope, a, b)
    ensures !Guarantees(sys, ts)
  {
    var states: seq<State>, actions: seq<Action> :| Trace(sys, ts, t0, states, actions) && states[|states| - 1] == s;
    assert UniqueActive(sys.w, states[0].sh.store, scope, Group(a));
    assert !UniqueActive(sys.w, s.sh.store, scope, Group(a));
  }

  lemma UncooledBreaks(sys: System, ts: seq<Target>, t0: Time, s: State, a: Action, t: Target, b: Run, r: Run)
    requires Reachable(sys, ts, t0, s) && Enabled(sys, s, a) && Apply(sys, s, a).registry == ts
    requires CreatesAmong(s, a, t, b, r) && IsActive(r, sys.w.phaseOf)
    ensures !Cools(sys, ts)
  {
    var states, actions := StepTrace(sys, ts, t0, s, a);
    hide Enabled, Apply, CreatesAmong, Behavior;
    var i: nat := |actions| - 1;
    assert Behavior(sys, states, actions) && Fixed(states, ts) && states[i] == s && actions[i] == a;
    assert !Cooled(sys, r, states[i].clock);
  }

  lemma CreateStep(sys: System, s: State, k: nat, t: Target, l: Loop, p: Run, seen: bool, a: Run)
    requires AtWork(s, k, t, Creating(l, p, seen)) && Sent(t, p, s.clock).name !in s.sh.store
    requires a.name in s.sh.store && s.sh.store[a.name] == a && InScope(t.scope, a) &&
        Group(a) == Group(Sent(t, p, s.clock))
    ensures var action := Work(k, Plain(None, None, s.clock, NoFault));
            && Enabled(sys, s, action) && Apply(sys, s, action).registry == s.registry
            && CreatesAmong(s, action, t, Sent(t, p, s.clock), a)
  {
    assert Sent(t, p, s.clock).name == p.name;
    hide Sent, InScope, Group;
  }

  /** A task creates its run beside an active one of its scope and group. */
  lemma BesideBreaks(sys: System, ts: seq<Target>, t0: Time, s: State, k: nat, t: Target, l: Loop, p: Run, seen: bool,
                     a: Run)
    requires Reachable(sys, ts, t0, s) && s.registry == ts && AtWork(s, k, t, Creating(l, p, seen))
    requires a.name in s.sh.store && s.sh.store[a.name] == a && Sent(t, p, s.clock).name !in s.sh.store
    requires InScope(t.scope, a) && IsActive(a, sys.w.phaseOf) && Group(a) == Group(Sent(t, p, s.clock))
    requires InScope(t.scope, Sent(t, p, s.clock)) && IsActive(Sent(t, p, s.clock), sys.w.phaseOf)
    ensures !Guarantees(sys, ts) && !Cools(sys, ts)
  {
    var b, action := Sent(t, p, s.clock), Work(k, Plain(None, None, s.clock, NoFault));
    CreateStep(sys, s, k, t, l, p, seen, a);
    hide Reachable, Sent, InScope, IsActive, Group, Guarantees, Cools, Enabled, Apply, CreatesAmong;
    UncooledBreaks(sys, ts, t0, s, action, t, b, a);
    var s' := Serve(sys, ts, t0, s, k, t, l, p, seen, NoFault);
    DoubledBreaks(sys, ts, t0, s', t.scope, a, b);
  }

  /** The runs of three alerts of one group for two targets. */
  lemma TrioRuns(sys: System, ts: seq<Target>, i: nat, j: nat, x: Alert, y: Alert, z: Alert, clock: Time)
    requires sys.w.Valid() && i < |ts| && j < |ts| && Trio(sys.w, sys.cfg, ts, x, y, z)
    ensures var a, b := Sent(ts[i], Proposal(sys, ts[i], x), clock), Sent(ts[j], Proposal(sys, ts[j], y), clock);
            var third := BaseName(sys.w, z, z.startsAt.value, ts[i].id);
            && GroupOf(sys.w, sys.cfg, x) == GroupOf(sys.w, sys.cfg, y) == GroupOf(sys.w, sys.cfg, z)
            && Group(a) == Group(b) == GroupOf(sys.w, sys.cfg, x)
            && a.name != b.name && a.name != third && b.name != third
            && InScope(ts[i].scope, a) && IsActive(a, sys.w.phaseOf)
            && InScope(ts[j].scope, b) && IsActive(b, sys.w.phaseOf)
  {
    assert ts[i] in ts && ts[j] in ts;
    SentIsActive(sys, ts[i], x, clock);
    SentIsActive(sys, ts[j], y, clock);
    hide Proposal, Sent, BaseName, GroupOf;
  }

  /** The tasks of targets `i` and `j` list an empty store and each decides to create a run. */
  lemma TwoDecide(sys: System, ts: seq<Target>, t0: Time, s: State, i: nat, j: nat, xs: seq<Alert>, ys: seq<Alert>)
    returns (s': State)
    requires Selecting(sys, ts, t0, s, 0) && i < j < |ts| && s.tokens == 0 && sys.Capacity() >= 2
    requires s.sh.store == map[] && |xs| > 0 && |ys| > 0 && Ripe(sys, xs[0], s.clock) && Ripe(sys, ys[0], s.clock)
    requires !InBackoff(s.sh.backoff, KeyOf(sys.w, sys.cfg, ts[i], xs[0]), s.clock)
    requires !InBackoff(s.sh.backoff, KeyOf(sys.w, sys.cfg, ts[j], ys[0]), s.clock)
    ensures Reachable(sys, ts, t0, s') && s'.registry == ts && s'.clock == s.clock && s'.sh == s.sh
    ensures AtWork(s', i, ts[i], Creating(Start(xs, [], s.clock), Proposal(sys, ts[i], xs[0]),
                                          SeenBefore(s.sh.backoff, KeyOf(sys.w, sys.cfg, ts[i], xs[0]))))
    ensures AtWork(s', j, ts[j], Creating(Start(ys, [], s.clock), Proposal(sys, ts[j], ys[0]),
                                          SeenBefore(s.sh.backoff, KeyOf(sys.w, sys.cfg, ts[j], ys[0]))))
  {
    hide Reachable, Ripe, Proposal, KeyOf, InBackoff, SeenBefore;
    var s1 := BeginTwo(sys, ts, t0, s, i, j);
    var s2 := Open(sys, ts, t0, s1, i, ts[i], xs);
    var s3 := Open(sys, ts, t0, s2, j, ts[j], ys);
    var s4 := Decide(sys, ts, t0, s3, i, ts[i], Start(xs, [], s.clock));
    s' := Decide(sys, ts, t0, s4, j, ts[j], Start(ys, [], s.clock));
  }

  /** Two tasks of one scope that have both decided both create. */
  lemma BothCreate(sys: System, ts: seq<Target>, t0: Time, s: State, i: nat, j: nat, l: Loop, p: Run, m: Loop, q: Run)
    requires Reachable(sys, ts, t0, s) && s.registry == ts && i < j < |ts| && s.sh.store == map[]
    requires AtWork(s, i, ts[i], Creating(l, p, false)) && AtWork(s, j, ts[j], Creating(m, q, false))
    requires var a, b := Sent(ts[i], p, s.clock), Sent(ts[j], q, s.clock);
             Doubled(sys, map[a.name := a, b.name := b], ts[i].scope, a, b) && ts[i].scope == ts[j].scope
    ensures !Guarantees(sys, ts) && !Cools(sys, ts)
  {
    hide Reachable, Sent, InScope, IsActive, Group, Guarantees, Cools;
    var s1 := Serve(sys, ts, t0, s, i, ts[i], l, p, false, NoFault);
    BesideBreaks(sys, ts, t0, s1, j, ts[j], m, q, false, Sent(ts[i], p, s.clock));
  }

  /** Both targets list the scope before either creates. */
  lemma SameScopeBreaks(sys: System, ts: seq<Target>, t0: Time, i: nat, j: nat, x: Alert, y: Alert, z: Alert)
    requires sys.w.Valid() && sys.Capacity() >= 2 && i < j < |ts| && ts[i].scope == ts[j].scope
    requires Trio(sys.w, sys.cfg, ts, x, y, z) && Ripe(sys, x, t0) && Ripe(sys, y, t0)
    ensures !Guarantees(sys, ts) && !Cools(sys, ts)
  {
    TrioRuns(sys, ts, i, j, x, y, z, t0);
    hide Reachable, Proposal, Ripe, Sent, Trio, GroupOf, BaseName, InScope, IsActive, Group, Guarantees, Cools;
    ReachBoot(sys, ts, t0);
    var s0 := PollNow(sys, ts, t0, Boot(ts, t0));
    var s := TwoDecide(sys, ts, t0, s0, i, j, [x], [y]);
    BothCreate(sys, ts, t0, s, i, j, Start([x], [], t0), Proposal(sys, ts[i], x), Start([y], [], t0),
               Proposal(sys, ts[j], y));
  }

  // ---------------------------------------------------------------- two targets of one name

  /** The only task of a cycle ends, the cycle returns, and a minute later the next begins. */
  lemma NextCycle(sys: System, ts: seq<Target>, t0: Time, s: State, i: nat, l: Loop) returns (s': State)
    requires Selecting(sys, ts, t0, s, i + 1) && s.tokens == 1 && s.wg == 1
    requires AtWork(s, i, ts[i], Scanning(l)) && l.i >= |l.alerts|
    ensures Selecting(sys, ts, t0, s', 0) && s'.tokens == 0 && s'.clock == s.clock + MINUTE
    ensures s'.sh == s.sh.(backoff := Collected(s.sh.backoff, s.clock + MINUTE))
  {
    hide Reachable;
    var s1 := Go(sys, ts, t0, s, i, ts[i], Scanning(l), Plain(None, None, s.clock, NoFault));
    var s2 := End(sys, ts, t0, s1, i);
    var s3 := SkipTo(sys, ts, t0, s2, i + 1, |ts|);
    ReachStep(sys, ts, t0, s3, LoopEnd);
    var s4 := Apply(sys, s3, LoopEnd);
    ReachStep(sys, ts, t0, s4, Return);
    var s5 := Apply(sys, s4, Return);
    ReachStep(sys, ts, t0, s5, Tick(s.clock + MINUTE));
    s' := PollNow(sys, ts, t0, Apply(sys, s5, Tick(s.clock + MINUTE)));
  }

  /** The table after one failure at `t0`; a minute later its one entry has elapsed but stays. */
  function OldEntry(key: string, t0: Time): Table {
    map[key := Entry(CREATION_BACKOFF_INITIAL, t0)]
  }

  lemma FirstFailure(key: string, t0: Time)
    ensures SettledBackoff(map[], key, t0, false, Errored, t0) == OldEntry(key, t0)
    ensures Collected(OldEntry(key, t0), t0 + MINUTE) == OldEntry(key, t0)
    ensures Collected(map[], t0) == map[]
  {
  }

  /** The task of target `i` alone decides to create a run. */
  lemma OneDecides(sys: System, ts: seq<Target>, t0: Time, s: State, i: nat, x: Alert) returns (s': State)
    requires Selecting(sys, ts, t0, s, 0) && i < |ts| && s.tokens == 0 && s.wg == 0
    requires s.sh == Shared(map[], map[]) && Ripe(sys, x, s.clock)
    ensures Selecting(sys, ts, t0, s', i + 1) && s'.tokens == 1 && s'.wg == 1 && s'.clock == s.clock && s'.sh == s.sh
    ensures AtWork(s', i, ts[i], Creating(Start([x], [], s.clock), Proposal(sys, ts[i], x), false))
  {
    hide Reachable, Ripe, Proposal, KeyOf;
    var s1 := SkipTo(sys, ts, t0, s, 0, i);
    var s2 := Begin(sys, ts, t0, s1, i);
    var s3 := Open(sys, ts, t0, s2, i, ts[i], [x]);
    s' := Decide(sys, ts, t0, s3, i, ts[i], Start([x], [], s.clock));
  }

  /** A first cycle in which only target `i` runs, its one create call fails, and a minute
      passes until the second cycle begins. */
  lemma FailOnce(sys: System, ts: seq<Target>, t0: Time, i: nat, x: Alert) returns (s': State)
    requires sys.w.Valid() && i < |ts| && Ripe(sys, x, t0)
    ensures Selecting(sys, ts, t0, s', 0) && s'.tokens == 0 && s'.clock == t0 + MINUTE
    ensures s'.sh == Shared(map[], OldEntry(BackoffKey(ts[i].name, GroupOf(sys.w, sys.cfg, x)), t0))
  {
    var t, l := ts[i], Start([x], [], t0);
    SentIsActive(sys, t, x, t0);
    FirstFailure(BackoffKey(t.name, GroupOf(sys.w, sys.cfg, x)), t0);
    hide Reachable, Ripe, Proposal, Sent, Fires, GroupOf, BaseName, InScope, IsActive, Group, Behavior, Distinct,
        Collected, OldEntry, SettledBackoff, BackoffKey;
    ReachBoot(sys, ts, t0);
    var s0 := PollNow(sys, ts, t0, Boot(ts, t0));
    var s4 := OneDecides(sys, ts, t0, s0, i, x);
    var s5 := Serve(sys, ts, t0, s4, i, t, l, Proposal(sys, t, x), false, FailBefore);
    var sent := Sent(t, Proposal(sys, t, x), t0);
    var s6 := Settle(sys, ts, t0, s5, i, t, l, sent, false, Errored);
    s' := NextCycle(sys, ts, t0, s6, i, SettledLoop(l, sent, Errored));
  }

  /** A minute after a failure both targets of one name find its elapsed entry and decide to
      create a run, the first one with another alert to come. */
  lemma BothDecide(sys: System, ts: seq<Target>, t0: Time, i: nat, j: nat, x: Alert, y: Alert, z: Alert)
    returns (s': State)
    requires sys.w.Valid() && sys.Capacity() >= 2 && i < j < |ts| && ts[i].name == ts[j].name
    requires GroupOf(sys.w, sys.cfg, x) == GroupOf(sys.w, sys.cfg, y)
    requires Ripe(sys, x, t0) && Ripe(sys, x, t0 + MINUTE) && Ripe(sys, y, t0 + MINUTE)
    ensures Reachable(sys, ts, t0, s') && s'.registry == ts && s'.clock == t0 + MINUTE
    ensures s'.sh == Shared(map[], OldEntry(BackoffKey(ts[i].name, GroupOf(sys.w, sys.cfg, x)), t0))
    ensures AtWork(s', i, ts[i], Creating(Start([x, z], [], t0 + MINUTE), Proposal(sys, ts[i], x), true))
    ensures AtWork(s', j, ts[j], Creating(Start([y], [], t0 + MINUTE), Proposal(sys, ts[j], y), true))
  {
    var t1 := t0 + MINUTE;
    var s0 := FailOnce(sys, ts, t0, i, x);
    hide Reachable, Proposal;
    s' := TwoDecide(sys, ts, t0, s0, i, j, [x, z], [y]);
  }

  /** The first one's run is applied but reported as an error, which puts the shared key in
      backoff; the second one's success then clears the key. */
  lemma KeyCleared(sys: System, ts: seq<Target>, t0: Time, s: State, i: nat, j: nat, l: Loop, p: Run, m: Loop, q: Run)
    returns (s': State)
    requires Reachable(sys, ts, t0, s) && s.registry == ts && i < j < |ts| && ts[i].name == ts[j].name
    requires AtWork(s, i, ts[i], Creating(l, p, true)) && AtWork(s, j, ts[j], Creating(m, q, true))
    requires s.sh.store == map[]
    requires var a, b := Sent(ts[i], p, s.clock), Sent(ts[j], q, s.clock); a.name != b.name && Group(a) == Group(b)
    ensures Reachable(sys, ts, t0, s') && s'.registry == ts && s'.clock == s.clock
    ensures var a, b := Sent(ts[i], p, s.clock), Sent(ts[j], q, s.clock);
            && AtWork(s', i, ts[i], Scanning(SettledLoop(l, a, Errored)))
            && s'.sh.store == map[a.name := a, b.name := b]
            && BackoffKey(ts[i].name, Group(a)) !in s'.sh.backoff
  {
    hide Reachable, Sent;
    var a, b := Sent(ts[i], p, s.clock), Sent(ts[j], q, s.clock);
    var s1 := Serve(sys, ts, t0, s, i, ts[i], l, p, true, FailAfter);
    var s2 := Serve(sys, ts, t0, s1, j, ts[j], m, q, true, NoFault);
    var s3 := Settle(sys, ts, t0, s2, i, ts[i], l, a, true, Errored);
    s' := Settle(sys, ts, t0, s3, j, ts[j], m, b, true, Created);
  }

  /** A task whose key is clear creates a run beside an active one it has not listed. */
  lemma CreateBeside(sys: System, ts: seq<Target>, t0: Time, s: State, i: nat, t: Target, l: Loop, a: Run)
    requires sys.w.Valid() && Reachable(sys, ts, t0, s) && s.registry == ts && AtWork(s, i, t, Scanning(l))
    requires l.i < |l.alerts| && l.runs == [] && Ripe(sys, l.alerts[l.i], l.now)
    requires BackoffKey(t.name, Group(a)) !in s.sh.backoff
    requires BaseName(sys.w, l.alerts[l.i], l.alerts[l.i].startsAt.value, t.id) !in s.sh.store
    requires a.name in s.sh.store && s.sh.store[a.name] == a && InScope(t.scope, a) && IsActive(a, sys.w.phaseOf)
    requires Group(a) == GroupOf(sys.w, sys.cfg, l.alerts[l.i])
    ensures !Guarantees(sys, ts) && !Cools(sys, ts)
  {
    var z := l.alerts[l.i];
    SentIsActive(sys, t, z, s.clock);
    hide Reachable, Proposal, Sent, Guarantees, Cools;
    var s1 := Decide(sys, ts, t0, s, i, t, l);
    BesideBreaks(sys, ts, t0, s1, i, t, l, Proposal(sys, t, z), false, a);
  }

  lemma RipeLater(sys: System, a: Alert, t0: Time)
    requires Ripe(sys, a, t0)
    ensures Ripe(sys, a, t0 + MINUTE)
  {
  }

  /** The first target's loop goes on to its second alert. */
  lemma OnToNext(x: Alert, z: Alert, now: Time, sent: Run)
    ensures var k := SettledLoop(Start([x, z], [], now), sent, Errored);
            k.i == 1 && k.alerts == [x, z] && k.runs == [] && k.now == now
  {
  }

  /** With the key cleared, the first target creates a second run for its next alert. */
  lemma SameNameBreaks(sys: System, ts: seq<Target>, t0: Time, i: nat, j: nat, x: Alert, y: Alert, z: Alert)
    requires sys.w.Valid() && sys.Capacity() >= 2 && i < j < |ts| && ts[i].name == ts[j].name
    requires Trio(sys.w, sys.cfg, ts, x, y, z)
    requires Ripe(sys, x, t0) && Ripe(sys, y, t0) && Ripe(sys, z, t0)
    ensures !Guarantees(sys, ts) && !Cools(sys, ts)
  {
    hide *;
    var t1 := t0 + MINUTE;
    RipeLater(sys, x, t0);
    RipeLater(sys, y, t0);
    RipeLater(sys, z, t0);
    TrioRuns(sys, ts, i, j, x, y, z, t1);
    var p, q := Proposal(sys, ts[i], x), Proposal(sys, ts[j], y);
    var a := Sent(ts[i], p, t1);
    OnToNext(x, z, t1, a);
    var s := BothDecide(sys, ts, t0, i, j, x, y, z);
    var cleared := KeyCleared(sys, ts, t0, s, i, j, Start([x, z], [], t1), p, Start([y], [], t1), q);
    CreateBeside(sys, ts, t0, cleared, i, ts[i], SettledLoop(Start([x, z], [], t1), a, Errored), a);
  }

  // ---------------------------------------------------------------- exactly when

  lemma TrioRipens(sys: System, ts: seq<Target>, x: Alert, y: Alert, z: Alert) returns (t0: Time)
    requires Trio(sys.w, sys.cfg, ts, x, y, z)
    ensures Ripe(sys, x, t0) && Ripe(sys, y, t0) && Ripe(sys, z, t0)
  {
    hide ToldApart, GroupOf, Reaches;
    t0 := Later(Later(x.startsAt.value, y.startsAt.value), z.startsAt.value) + sys.cfg.preRunDelay;
  }

  function Later(a: Time, b: Time): Time {
    if a < b then b else a
  }

  lemma OverlapBreaks(sys: System, ts: seq<Target>)
    requires sys.w.Valid() && Rich(sys.w, sys.cfg, ts)
    requires sys.Capacity() > 1 && !Distinct(ts)
    ensures !Guarantees(sys, ts) && !Cools(sys, ts)
  {
    hide Trio, Guarantees, Cools, Ripe;
    var x, y, z :| Trio(sys.w, sys.cfg, ts, x, y, z);
    var i: nat, j: nat :| i < j < |ts| && (ts[i].name == ts[j].name || ts[i].scope == ts[j].scope);
    var t0 := TrioRipens(sys, ts, x, y, z);
    if ts[i].scope == ts[j].scope {
      SameScopeBreaks(sys, ts, t0, i, j, x, y, z);
    } else {
      SameNameBreaks(sys, ts, t0, i, j, x, y, z);
    }
  }

  lemma ApartGuarantees(sys: System, ts: seq<Target>)
    requires sys.Capacity() == 1 || Distinct(ts)
    ensures Guarantees(sys, ts)
  {
    forall states: seq<State>, actions: seq<Action>, scope: string, fp: string |
      Behavior(sys, states, actions) && Fixed(states, ts) && UniqueActive(sys.w, states[0].sh.store, scope, fp)
      ensures UniqueActive(sys.w, states[|states| - 1].sh.store, scope, fp)
    {
      assert Separated(sys, states);
      OneActivePerGroup(sys, states, actions, 0, |states| - 1, scope, fp);
    }
  }

  /** Deduplication is guaranteed for these targets exactly when no two of them have one name or
      one scope, or when only one task runs at a time. */
  lemma DeduplicationIff(sys: System, ts: seq<Target>)
    requires sys.w.Valid() && Rich(sys.w, sys.cfg, ts)
    ensures Guarantees(sys, ts) <==> sys.Capacity() == 1 || Distinct(ts)
  {
    if sys.Capacity() == 1 || Distinct(ts) {
      ApartGuarantees(sys, ts);
    } else {
      OverlapBreaks(sys, ts);
    }
  }

  lemma ApartCools(sys: System, ts: seq<Target>)
    requires sys.Capacity() == 1 || Distinct(ts)
    ensures Cools(sys, ts)
  {
    hide Creates, Known, InScope, Group, Cooled, Enabled, Apply, Init, Distinct;
    forall states: seq<State>, actions: seq<Action>, i: nat, t: Target, b: Run, r: Run |
      Behavior(sys, states, actions) && Fixed(states, ts) && i < |actions| &&
          CreatesAmong(states[i], actions[i], t, b, r)
      ensures Cooled(sys, r, states[i].clock)
    {
      assert Separated(sys, states);
      CreationAfterCooldown(sys, states, actions, i, t, b, r);
    }
  }

  /** The same condition decides whether every creation waits for the cooldown of its group. */
  lemma CooldownIff(sys: System, ts: seq<Target>)
    requires sys.w.Valid() && Rich(sys.w, sys.cfg, ts)
    ensures Cools(sys, ts) <==> sys.Capacity() == 1 || Distinct(ts)
  {
    hide Cools, Guarantees;
    if sys.Capacity() == 1 || Distinct(ts) {
      ApartCools(sys, ts);
    } else {
      OverlapBreaks(sys, ts);
    }
  }

  // ---------------------------------------------------------------- spacing

  lemma UnspacedBreaks(sys: System, ts: seq<Target>, t0: Time, s: State, k: nat, before: seq<Event>, at: Time)
    requires Reachable(sys, ts, t0, s) && Calling(s, k)
    requires var key := BackoffKey(s.workers[k].t.name, Group(s.workers[k].stage.task.run));
             s.ledger == before + [Failure(key, at, s.clock)]
    ensures !Spaces(sys, ts)
  {
    var states: seq<State>, actions: seq<Action> :| Trace(sys, ts, t0, states, actions) && states[|states| - 1] == s;
    var i: nat := |states| - 1;
    StreakIs(s.ledger, BackoffKey(s.workers[k].t.name, Group(s.workers[k].stage.task.run)), |before|);
    hide Behavior, BackoffKey, StreakOf, Wait;
    assert Calling(states[i], k) && !CallSpaced(states[i], k);
  }

  /** Two tasks of one name both decide, the first one with another alert to come, and fails. */
  lemma FirstFails(sys: System, ts: seq<Target>, t0: Time, i: nat, j: nat, xs: seq<Alert>, y: Alert) returns (s': State)
    requires sys.w.Valid() && sys.Capacity() >= 2 && i < j < |ts| && ts[i].name == ts[j].name
    requires |xs| > 0 && Ripe(sys, xs[0], t0) && Ripe(sys, y, t0)
    ensures Reachable(sys, ts, t0, s') && s'.registry == ts && s'.clock == t0 && s'.sh.store == map[]
    ensures var l, p := Start(xs, [], t0), Proposal(sys, ts[i], xs[0]);
            var key := BackoffKey(ts[i].name, GroupOf(sys.w, sys.cfg, xs[0]));
            && AtWork(s', i, ts[i], Scanning(SettledLoop(l, Sent(ts[i], p, t0), Errored)))
            && AtWork(s', j, ts[j], Creating(Start([y], [], t0), Proposal(sys, ts[j], y), false))
            && s'.sh.backoff == OldEntry(key, t0)
            && s'.ledger != [] && s'.ledger[|s'.ledger| - 1] == Failure(key, t0, t0)
  {
    var p, l := Proposal(sys, ts[i], xs[0]), Start(xs, [], t0);
    ProposalGroup(sys, ts[i], xs[0], t0);
    FirstFailure(BackoffKey(ts[i].name, GroupOf(sys.w, sys.cfg, xs[0])), t0);
    hide Reachable, Proposal, Ripe, Sent, GroupOf, Group, BackoffKey, SettledBackoff, Collected, OldEntry;
    ReachBoot(sys, ts, t0);
    var s0 := PollNow(sys, ts, t0, Boot(ts, t0));
    var s1 := TwoDecide(sys, ts, t0, s0, i, j, xs, [y]);
    var s2 := Serve(sys, ts, t0, s1, i, ts[i], l, p, false, FailBefore);
    s' := Settle(sys, ts, t0, s2, i, ts[i], l, Sent(ts[i], p, t0), false, Errored);
  }

  /** The second task calls all the same. */
  lemma SameNameUnspaced(sys: System, ts: seq<Target>, t0: Time, i: nat, j: nat, x: Alert)
    requires sys.w.Valid() && sys.Capacity() >= 2 && i < j < |ts| && ts[i].name == ts[j].name && Ripe(sys, x, t0)
    ensures !Spaces(sys, ts)
  {
    ProposalGroup(sys, ts[j], x, t0);
    var s := FirstFails(sys, ts, t0, i, j, [x], x);
    hide Reachable, Proposal, Ripe, Sent, GroupOf, Group, Spaces, BackoffKey;
    var n := |s.ledger| - 1;
    assert s.ledger == s.ledger[..n] + [s.ledger[n]];
    UnspacedBreaks(sys, ts, t0, s, j, s.ledger[..n], t0);
  }

  lemma ProposalGroup(sys: System, t: Target, x: Alert, clock: Time)
    requires Fires(sys.w, sys.cfg, x)
    ensures Group(Proposal(sys, t, x)) == Group(Sent(t, Proposal(sys, t, x), clock)) == GroupOf(sys.w, sys.cfg, x)
  {
    BuiltFacts(sys.w, x, GroupOf(sys.w, sys.cfg, x), t.id);
    SentGroup(t, Proposal(sys, t, x), clock);
  }

  lemma NamesSpace(sys: System, ts: seq<Target>)
    requires sys.Capacity() == 1 || UniqueNames(ts)
    ensures Spaces(sys, ts)
  {
    hide Behavior, CallSpaced;
    forall states: seq<State>, actions: seq<Action>, i: nat, k: nat |
      Behavior(sys, states, actions) && Fixed(states, ts) && i < |states| && Calling(states[i], k)
      ensures CallSpaced(states[i], k)
    {
      assert NamesSeparated(sys, states);
      CreateCallsSpaced(sys, states, actions, i, k);
    }
  }

  /** Create calls are spaced for these targets exactly when no two of them have one name, or
      only one task runs at a time. */
  lemma SpacingIff(sys: System, ts: seq<Target>)
    requires sys.w.Valid() && exists x :: Fires(sys.w, sys.cfg, x)
    ensures Spaces(sys, ts) <==> sys.Capacity() == 1 || UniqueNames(ts)
  {
    hide Fires, Spaces;
    if sys.Capacity() == 1 || UniqueNames(ts) {
      NamesSpace(sys, ts);
    } else {
      var x :| Fires(sys.w, sys.cfg, x);
      var i: nat, j: nat :| i < j < |ts| && ts[i].name == ts[j].name;
      var t0 := Ripens(sys, x);
      SameNameUnspaced(sys, ts, t0, i, j, x);
    }
  }

  lemma Ripens(sys: System, x: Alert) returns (t0: Time)
    requires Fires(sys.w, sys.cfg, x)
    ensures Ripe(sys, x, t0)
  {
    t0 := x.startsAt.value + sys.cfg.preRunDelay;
  }

  lemma LateBreaks(sys: System, ts: seq<Target>, t0: Time, s: State, k: nat, l: Loop, before: seq<Event>)
    requires Reachable(sys, ts, t0, s) && Deciding(sys, s, k, l)
    requires var key := KeyOf(sys.w, sys.cfg, s.workers[k].t, l.alerts[l.i]);
             InBackoff(s.sh.backoff, key, l.now) && s.ledger == before + [Success(key)]
    ensures !OnTime(sys, ts)
  {
    var states: seq<State>, actions: seq<Action> :| Trace(sys, ts, t0, states, actions) && states[|states| - 1] == s;
    var i: nat := |states| - 1;
    var key := KeyOf(sys.w, sys.cfg, s.workers[k].t, l.alerts[l.i]);
    StreakIs(s.ledger, key, |before|);
    hide Behavior, KeyOf, StreakOf, Wait, InBackoff, Judge;
    assert !DecidesOnTime(sys, s, k, l);
    assert Deciding(sys, states[i], k, l) && !DecidesOnTime(sys, states[i], k, l);
  }

  /** The second task's success comes after the first one's failure but does not clear the entry,
      which was not there when the second one decided; the first one's next alert is held back. */
  lemma SameNameLate(sys: System, ts: seq<Target>, t0: Time, i: nat, j: nat, x: Alert, y: Alert, z: Alert)
    requires sys.w.Valid() && sys.Capacity() >= 2 && i < j < |ts| && ts[i].name == ts[j].name
    requires Trio(sys.w, sys.cfg, ts, x, y, z) && Ripe(sys, x, t0) && Ripe(sys, y, t0) && Ripe(sys, z, t0)
    ensures !OnTime(sys, ts)
  {
    hide Reachable, Proposal, Ripe, Sent, GroupOf, Group, OnTime, BackoffKey, BaseName, ToldApart, Fires;
    var b, l := Sent(ts[j], Proposal(sys, ts[j], y), t0), Start([x, z], [], t0);
    TrioRuns(sys, ts, i, j, x, y, z, t0);
    var s := FirstFails(sys, ts, t0, i, j, [x, z], y);
    var s1 := Serve(sys, ts, t0, s, j, ts[j], Start([y], [], t0), Proposal(sys, ts[j], y), false, NoFault);
    var s2 := Settle(sys, ts, t0, s1, j, ts[j], Start([y], [], t0), b, false, Created);
    OnToNext(x, z, t0, Sent(ts[i], Proposal(sys, ts[i], x), t0));
    RipeIsProposed(sys, ts[i], z, t0);
    LateBreaks(sys, ts, t0, s2, i, SettledLoop(l, Sent(ts[i], Proposal(sys, ts[i], x), t0), Errored), s1.ledger);
  }

  lemma NamesOnTime(sys: System, ts: seq<Target>)
    requires sys.Capacity() == 1 || UniqueNames(ts)
    ensures OnTime(sys, ts)
  {
    hide Enabled, Apply, Init, DecidesOnTime, Deciding;
    forall states: seq<State>, actions: seq<Action>, i: nat, k: nat, l: Loop |
      Behavior(sys, states, actions) && Fixed(states, ts) && i < |states| && Deciding(sys, states[i], k, l)
      ensures DecidesOnTime(sys, states[i], k, l)
    {
      assert NamesSeparated(sys, states);
      AttemptsFollowSchedule(sys, states, actions, i, k, l);
    }
  }

  /** The same condition on names decides whether attempts follow the schedule of answers. */
  lemma ScheduleIff(sys: System, ts: seq<Target>)
    requires sys.w.Valid() && Rich(sys.w, sys.cfg, ts)
    ensures OnTime(sys, ts) <==> sys.Capacity() == 1 || UniqueNames(ts)
  {
    hide Trio, OnTime, Ripe;
    if sys.Capacity() == 1 || UniqueNames(ts) {
      NamesOnTime(sys, ts);
    } else {
      var x, y, z :| Trio(sys.w, sys.cfg, ts, x, y, z);
      var i: nat, j: nat :| i < j < |ts| && ts[i].name == ts[j].name;
      var t0 := TrioRipens(sys, ts, x, y, z);
      SameNameLate(sys, ts, t0, i, j, x, y, z);
    }
  }

  // ---------------------------------------------------------------- registries

  /** For the targets a registry delivers: exactly when no spoke takes the hub target's name and
      no two spokes share an identity, or when only one task runs at a time. */
  lemma RegistryGuaranteesIff(sys: System, ts: seq<Target>, hub: seq<Target>, spokes: Spokes)
    requires sys.w.Valid() && Rich(sys.w, sys.cfg, ts) && FromHub(ts, hub, spokes, sys.w.sha)
    ensures Guarantees(sys, ts) <==>
            sys.Capacity() == 1 || ((hub != [] ==> "local" !in spokes) && DistinctIds(spokes, sys.w.sha))
  {
    hide Guarantees, Rich, FromHub, DistinctIds, Distinct;
    DeduplicationIff(sys, ts);
    SnapshotDistinct(ts, hub, spokes, sys.w.sha);
  }

  // ---------------------------------------------------------------- a registry that fails

  function StartedAt(a: Alert, startsAt: Time): Alert {
    a.(startsAt := Some(startsAt))
  }

  ghost predicate HashesDiffer(w: World, ts: seq<Target>, s1: Time, s2: Time) {
    forall t, u :: t in ts && u in ts ==>
      OccurrenceHash(w.rfc3339(s1), t.id, w.sha) != OccurrenceHash(w.rfc3339(s2), u.id, w.sha)
  }

  lemma HashesTellApart(w: World, ts: seq<Target>, a: Alert, s1: Time, s2: Time)
    requires HashesDiffer(w, ts, s1, s2)
    ensures ToldApart(w, ts, StartedAt(a, s1), StartedAt(a, s2))
  {
    var alertName, namespace := Lookup(a.labels, "alertname"), Lookup(a.labels, "namespace");
    forall t, u | t in ts && u in ts
      ensures BaseName(w, StartedAt(a, s1), s1, t.id) != BaseName(w, StartedAt(a, s2), s2, u.id)
    {
      var h1, h2 := OccurrenceHash(w.rfc3339(s1), t.id, w.sha), OccurrenceHash(w.rfc3339(s2), u.id, w.sha);
      BuildNameShape(alertName, namespace, h1, w.lower);
      BuildNameShape(alertName, namespace, h2, w.lower);
      BaseNamesDiffer(BuildName(alertName, namespace, h1, w.lower), h1, BuildName(alertName, namespace, h2, w.lower),
                      h2);
    }
  }

  /** One alert that fires at three times with different occurrence hashes is enough. */
  lemma RichWhenHashesDiffer(w: World, cfg: Config, ts: seq<Target>, a: Alert, s1: Time, s2: Time, s3: Time)
    requires Fires(w, cfg, StartedAt(a, s1)) && Fires(w, cfg, StartedAt(a, s2)) && Fires(w, cfg, StartedAt(a, s3))
    requires HashesDiffer(w, ts, s1, s2) && HashesDiffer(w, ts, s1, s3) && HashesDiffer(w, ts, s2, s3)
    ensures Rich(w, cfg, ts)
  {
    HashesTellApart(w, ts, a, s1, s2);
    HashesTellApart(w, ts, a, s1, s3);
    HashesTellApart(w, ts, a, s2, s3);
    assert Trio(w, cfg, ts, StartedAt(a, s1), StartedAt(a, s2), StartedAt(a, s3));
  }

  lemma ExampleIsRich(cfg: Config, receiver: string, ts: seq<Target>)
    requires receiver in cfg.allowedReceivers
    ensures Rich(ExampleWorld(), cfg, ts)
  {
    var w := ExampleWorld();
    var a := Alert(Some("0"), Some(0), map["alertname" := "a"], [Some(receiver)]);
    assert w.lower(receiver) in cfg.allowedReceivers && Some(receiver) in a.receivers;
    forall s1: Time, s2: Time | 0 <= s1 < s2 < 3 ensures HashesDiffer(w, ts, s1, s2) {
      forall t, u | t in ts && u in ts
        ensures OccurrenceHash(w.rfc3339(s1), t.id, w.sha) != OccurrenceHash(w.rfc3339(s2), u.id, w.sha)
      {
        ExampleHash(s1, t.id);
        ExampleHash(s2, u.id);
      }
    }
    RichWhenHashesDiffer(w, cfg, ts, a, 0, 1, 2);
  }

  /** A spoke may be called "local".  Its scope is not the hub target's, yet beside the hub, and
      with tasks that overlap, it costs the guarantee. */
  lemma SpokeCalledLocal(cfg: Config, receiver: string, maxConcurrentTargets: int)
    requires receiver in cfg.allowedReceivers && maxConcurrentTargets > 1
    ensures var w := ExampleWorld();
            var id := SpokeTargetID("local", w.sha);
            var hub, spoke := Target("local", "", "local"), Target("local", id, id);
            hub.scope != spoke.scope && !Guarantees(System(w, cfg, maxConcurrentTargets), [hub, spoke])
  {
    var w := ExampleWorld();
    var id := SpokeTargetID("local", w.sha);
    var ts := [Target("local", "", "local"), Target("local", id, id)];
    ExampleIsRich(cfg, receiver, ts);
    assert !Distinct(ts) by { assert ts[0].name == ts[1].name; }
    hide Guarantees, Rich, SpokeTargetID;
    DeduplicationIff(System(w, cfg, maxConcurrentTargets), ts);
  }
}
