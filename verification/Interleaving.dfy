/** The target tasks of one cycle, run concurrently: with the world's answers fixed, every
    complete interleaving ends like running the targets one after another. */
module Interleaving {
  import opened Text
  import opened Names
  import opened Runs
  import opened Backoffs
  import opened Clients
  import opened Decisions
  import opened Tasks
  import opened Solo

  datatype Job = Job(t: Target, s: Script)

  datatype Crew = Crew(tasks: seq<Task>, sh: Shared)

  // ---------------------------------------------------------------- ownership

  /** The longest run list the job can hold: what was listed and one run per alert. */
  function Bound(s: Script): nat {
    (if s.listed.Some? then |s.listed.value| else 0) + (if s.alerts.Some? then |s.alerts.value| else 0)
  }

  /** A name the job could ask for: proposed for one of its alerts from a run list it can hold. */
  ghost predicate MayPropose(w: World, cfg: Config, j: Job, name: string) {
    exists a, runs :: Proposes(w, cfg, j, a, runs, name)
  }

  ghost predicate Proposes(w: World, cfg: Config, j: Job, a: Alert, runs: seq<Run>, name: string) {
    && j.s.alerts.Some? && a in j.s.alerts.value
    && CanHold(j.s, runs)
    && var v := Judge(w, cfg, j.t, a, runs, j.s.now); v.Propose? && v.run.name == name
  }

  /** The list a job holds is what was listed and fresh runs, at most one for each alert. */
  ghost predicate CanHold(s: Script, runs: seq<Run>) {
    && s.listed.Some? && |runs| <= Bound(s)
    && forall r :: r in runs ==> r in s.listed.value || r.conditions == []
  }

  ghost predicate OwnsKey(j: Job, key: string) {
    exists fp :: |fp| == 8 && key == BackoffKey(j.t.name, fp)
  }

  ghost predicate AllComplete(jobs: seq<Job>) {
    forall k :: 0 <= k < |jobs| ==> jobs[k].s.Complete()
  }

  /** The names of the runs the job adds when it runs alone. */
  ghost function Added(w: World, cfg: Config, j: Job, sh: Shared): set<string>
    requires j.s.Complete()
  {
    Whole(w, cfg, j.t, j.s, sh).1.store.Keys - sh.store.Keys
  }

  /** The names that matter to the job: those taken at the start, and those it adds alone. */
  ghost function Touched(w: World, cfg: Config, j: Job, sh: Shared): set<string>
    requires j.s.Complete()
  {
    sh.store.Keys + Added(w, cfg, j, sh)
  }

  ghost predicate DistinctNames(jobs: seq<Job>) {
    forall i, j :: 0 <= i < j < |jobs| ==> jobs[i].t.name != jobs[j].t.name
  }

  ghost predicate DistinctScopes(jobs: seq<Job>) {
    forall i, j :: 0 <= i < j < |jobs| ==> jobs[i].t.scope != jobs[j].t.scope
  }

  /** No two jobs, each run alone, add one run name. */
  ghost predicate Apart(w: World, cfg: Config, jobs: seq<Job>, sh: Shared)
    requires AllComplete(jobs)
  {
    forall i, j :: 0 <= i < j < |jobs| ==> Added(w, cfg, jobs[i], sh) !! Added(w, cfg, jobs[j], sh)
  }

  ghost predicate SameAt<V>(a: map<string, V>, b: map<string, V>, key: string) {
    (key in a <==> key in b) && (key in a && key in b ==> a[key] == b[key])
  }

  /** The two shared states agree on the job's backoff keys and the given run names. */
  ghost predicate Agree(j: Job, names: set<string>, a: Shared, b: Shared) {
    && (forall key :: OwnsKey(j, key) ==> SameAt(a.backoff, b.backoff, key))
    && (forall name :: name in names ==> SameAt(a.store, b.store, name))
  }

  /** The two shared states agree on everything else. */
  ghost predicate AgreeOutside(j: Job, names: set<string>, a: Shared, b: Shared) {
    && (forall key :: !OwnsKey(j, key) ==> SameAt(a.backoff, b.backoff, key))
    && (forall name :: name !in names ==> SameAt(a.store, b.store, name))
  }

  ghost predicate Extends(a: Store, b: Store) {
    forall name :: name in a ==> name in b && b[name] == a[name]
  }

  // ---------------------------------------------------------------- one move

  ghost predicate LoopOf(s: Script, l: Loop) {
    && s.alerts == Some(l.alerts) && s.listed.Some? && l.now == s.now
    && l.i <= |l.alerts| && |l.runs| <= |s.listed.value| + l.i
    && forall r :: r in l.runs ==> r in s.listed.value || r.conditions == []
  }

  ghost predicate TaskOf(w: World, cfg: Config, j: Job, task: Task) {
    match task
    case Fetching => true
    case Listing(alerts) => j.s.alerts == Some(alerts)
    case Stamping(alerts, runs) => j.s.alerts == Some(alerts) && j.s.listed == Some(runs)
    case Scanning(l) => LoopOf(j.s, l)
    case Creating(l, p, _) => LoopOf(j.s, l) && l.i < |l.alerts| &&
        Judge(w, cfg, j.t, l.alerts[l.i], l.runs, l.now) == Propose(p)
    case Settling(l, sent, _, _) =>
      LoopOf(j.s, l) && l.i < |l.alerts| && |Group(sent)| == 8 && sent.conditions == []
    case Finished(_) => true
  }

  lemma MoveKeepsTaskOf(w: World, cfg: Config, j: Job, task: Task, sh: Shared)
    requires TaskOf(w, cfg, j, task)
    ensures TaskOf(w, cfg, j, Move(w, cfg, j.t, j.s, task, sh).0)
  {
    hide Judge, GroupOf, ServeCreate, Scoped, InBackoff, AfterFailure, Sent, SeenBefore, SettledBackoff;
    if task.Creating? {
      var l := task.l;
      var inp := InputFor(j.s, task);
      ProposalKey(w, cfg, j.t, l.alerts[l.i], l.runs, l.now, inp.clock);
    }
  }

  /** The name of a create request that the server processes. */
  ghost predicate Covered(j: Job, task: Task, names: set<string>) {
    task.Creating? && !InputFor(j.s, task).fault.FailBefore? ==> task.run.name in names
  }

  /** What a job does depends only on its backoff keys and the names it asks for. */
  lemma MoveIsLocal(w: World, cfg: Config, j: Job, task: Task, names: set<string>, a: Shared, b: Shared)
    requires TaskOf(w, cfg, j, task) && Agree(j, names, a, b) && Covered(j, task, names)
    ensures var (nextA, afterA) := Move(w, cfg, j.t, j.s, task, a);
            var (nextB, afterB) := Move(w, cfg, j.t, j.s, task, b);
            nextA == nextB && Agree(j, names, afterA, afterB)
  {
    match task {
      case Scanning(l) => ScanningIsLocal(w, cfg, j, l, names, a, b);
      case Creating(l, p, seen) => CreatingIsLocal(w, cfg, j, l, p, seen, names, a, b);
      case Settling(l, sent, seen, answer) => SettlingIsLocal(w, cfg, j, l, sent, seen, answer, names, a, b);
      case _ =>
    }
  }

  lemma ScanningIsLocal(w: World, cfg: Config, j: Job, l: Loop, names: set<string>, a: Shared, b: Shared)
    requires Agree(j, names, a, b)
    ensures Move(w, cfg, j.t, j.s, Scanning(l), a).0 == Move(w, cfg, j.t, j.s, Scanning(l), b).0
    ensures Move(w, cfg, j.t, j.s, Scanning(l), a).1 == a && Move(w, cfg, j.t, j.s, Scanning(l), b).1 == b
  {
    hide Judge, KeyOf, OwnsKey, GroupOf;
    if l.i < |l.alerts| {
      KeyIsOwned(w, cfg, j, l.alerts[l.i]);
      assert SameAt(a.backoff, b.backoff, KeyOf(w, cfg, j.t, l.alerts[l.i]));
    }
  }

  lemma KeyIsOwned(w: World, cfg: Config, j: Job, a: Alert)
    ensures OwnsKey(j, KeyOf(w, cfg, j.t, a))
  {
    var fp := GroupOf(w, cfg, a);
    hide GroupOf;
    assert |fp| == 8 && KeyOf(w, cfg, j.t, a) == BackoffKey(j.t.name, fp);
  }

  lemma CreatingIsLocal(w: World, cfg: Config, j: Job, l: Loop, p: Run, seen: bool, names: set<string>, a: Shared,
                        b: Shared)
    requires Agree(j, names, a, b) && Covered(j, Creating(l, p, seen), names)
    ensures var (nextA, afterA) := Move(w, cfg, j.t, j.s, Creating(l, p, seen), a);
            var (nextB, afterB) := Move(w, cfg, j.t, j.s, Creating(l, p, seen), b);
            nextA == nextB && Agree(j, names, afterA, afterB)
  {
    CreatingMove(w, cfg, j, l, p, seen, a);
    CreatingMove(w, cfg, j, l, p, seen, b);
    var inp := InputFor(j.s, Creating(l, p, seen));
    var sent := Sent(j.t, p, inp.clock);
    SentName(j.t, p, inp.clock);
    ServeIsLocal(a.store, b.store, sent, inp.fault);
  }

  lemma CreatingMove(w: World, cfg: Config, j: Job, l: Loop, p: Run, seen: bool, sh: Shared)
    ensures var inp := InputFor(j.s, Creating(l, p, seen));
            var sent := Sent(j.t, p, inp.clock);
            Move(w, cfg, j.t, j.s, Creating(l, p, seen), sh) ==
              (Settling(l, sent, seen, ServeCreate(sh.store, sent, inp.fault).1),
               sh.(store := ServeCreate(sh.store, sent, inp.fault).0))
  {
  }

  lemma SentName(t: Target, p: Run, clock: Time)
    ensures Sent(t, p, clock).name == p.name
  {
  }

  /** A create request reads and writes its own name only. */
  lemma ServeIsLocal(a: Store, b: Store, r: Run, fault: Fault)
    ensures fault.FailBefore? || SameAt(a, b, r.name) ==> ServeCreate(a, r, fault).1 == ServeCreate(b, r, fault).1
    ensures fault.FailBefore? || SameAt(a, b, r.name) ==>
              forall name :: SameAt(a, b, name) ==> SameAt(ServeCreate(a, r, fault).0, ServeCreate(b, r, fault).0, name)
    ensures forall name :: fault.FailBefore? || name in a || name != r.name ==>
        SameAt(a, ServeCreate(a, r, fault).0, name)
  {
  }

  /** Settling a create call reads and writes its own backoff key only. */
  lemma SettledIsLocal(a: Table, b: Table, key: string, now: Time, seen: bool, answer: Answer, stamp: Time)
    ensures SameAt(a, b, key) ==>
              forall k :: SameAt(a, b, k) ==> SameAt(SettledBackoff(a, key, now, seen, answer, stamp),
                                                     SettledBackoff(b, key, now, seen, answer, stamp), k)
    ensures forall k :: k != key ==> SameAt(a, SettledBackoff(a, key, now, seen, answer, stamp), k)
  {
  }

  lemma SettlingMove(w: World, cfg: Config, j: Job, l: Loop, sent: Run, seen: bool, answer: Answer, sh: Shared)
    ensures var task := Settling(l, sent, seen, answer);
            var inp := InputFor(j.s, task);
            Move(w, cfg, j.t, j.s, task, sh) ==
              if answer.Errored? && inp.cancelled then (Finished(Some(l)), sh)
              else (Scanning(SettledLoop(l, sent, answer)),
                    sh.(backoff := SettledBackoff(sh.backoff, BackoffKey(j.t.name, Group(sent)), l.now, seen, answer,
                                                  inp.clock)))
  {
  }

  lemma SettlingIsLocal(w: World, cfg: Config, j: Job, l: Loop, sent: Run, seen: bool, answer: Answer,
                        names: set<string>, a: Shared, b: Shared)
    requires |Group(sent)| == 8 && Agree(j, names, a, b)
    ensures var (nextA, afterA) := Move(w, cfg, j.t, j.s, Settling(l, sent, seen, answer), a);
            var (nextB, afterB) := Move(w, cfg, j.t, j.s, Settling(l, sent, seen, answer), b);
            nextA == nextB && Agree(j, names, afterA, afterB)
  {
    var key := BackoffKey(j.t.name, Group(sent));
    assert OwnsKey(j, key);
    hide Move, SettledBackoff, OwnsKey, BackoffKey, SameAt;
    SettlingMove(w, cfg, j, l, sent, seen, answer, a);
    SettlingMove(w, cfg, j, l, sent, seen, answer, b);
    SettledIsLocal(a.backoff, b.backoff, key, l.now, seen, answer,
                   InputFor(j.s, Settling(l, sent, seen, answer)).clock);
  }

  /** A move writes at most its job's backoff keys and the free name it asks for. */
  lemma MoveStaysInside(w: World, cfg: Config, j: Job, task: Task, names: set<string>, sh: Shared)
    requires TaskOf(w, cfg, j, task) && Covered(j, task, names + sh.store.Keys)
    ensures AgreeOutside(j, names, sh, Move(w, cfg, j.t, j.s, task, sh).1)
  {
    match task {
      case Creating(l, p, seen) => CreatingStaysInside(w, cfg, j, l, p, seen, names, sh);
      case Settling(l, sent, seen, answer) =>
        assert |Group(sent)| == 8 by { SettlingGroup(w, cfg, j, l, sent, seen, answer); }
        SettlingStaysInside(w, cfg, j, l, sent, seen, answer, names, sh);
      case _ =>
        MoveKeepsShared(w, cfg, j, task, sh);
        AgreeOutsideSelf(j, names, sh);
    }
  }

  lemma AgreeOutsideSelf(j: Job, names: set<string>, sh: Shared)
    ensures AgreeOutside(j, names, sh, sh)
  {
  }

  lemma SettlingGroup(w: World, cfg: Config, j: Job, l: Loop, sent: Run, seen: bool, answer: Answer)
    requires TaskOf(w, cfg, j, Settling(l, sent, seen, answer))
    ensures |Group(sent)| == 8
  {
  }

  lemma CreatingStaysInside(w: World, cfg: Config, j: Job, l: Loop, p: Run, seen: bool, names: set<string>, sh: Shared)
    requires Covered(j, Creating(l, p, seen), names + sh.store.Keys)
    ensures AgreeOutside(j, names, sh, Move(w, cfg, j.t, j.s, Creating(l, p, seen), sh).1)
  {
    CreatingMove(w, cfg, j, l, p, seen, sh);
    var inp := InputFor(j.s, Creating(l, p, seen));
    SentName(j.t, p, inp.clock);
    ServeIsLocal(sh.store, sh.store, Sent(j.t, p, inp.clock), inp.fault);
  }

  lemma SettlingStaysInside(w: World, cfg: Config, j: Job, l: Loop, sent: Run, seen: bool, answer: Answer,
                            names: set<string>, sh: Shared)
    requires |Group(sent)| == 8
    ensures AgreeOutside(j, names, sh, Move(w, cfg, j.t, j.s, Settling(l, sent, seen, answer), sh).1)
  {
    var key := BackoffKey(j.t.name, Group(sent));
    assert OwnsKey(j, key);
    hide Move, SettledBackoff, OwnsKey, BackoffKey;
    SettlingMove(w, cfg, j, l, sent, seen, answer, sh);
    SettledIsLocal(sh.backoff, sh.backoff, key, l.now, seen, answer,
                   InputFor(j.s, Settling(l, sent, seen, answer)).clock);
  }

  lemma MoveKeepsShared(w: World, cfg: Config, j: Job, task: Task, sh: Shared)
    requires !task.Creating? && !task.Settling?
    ensures Move(w, cfg, j.t, j.s, task, sh).1 == sh
  {
  }

  lemma KeysApart(a: Job, b: Job, key: string)
    requires a.t.name != b.t.name
    ensures !(OwnsKey(a, key) && OwnsKey(b, key))
  {
    forall f1, f2 | |f1| == 8 && |f2| == 8 && key == BackoffKey(a.t.name, f1)
      ensures key != BackoffKey(b.t.name, f2)
    {
      BackoffKeyInjective(a.t.name, f1, b.t.name, f2);
    }
  }

  lemma OthersUntouched(a: Job, written: set<string>, b: Job, names: set<string>, before: Shared, after: Shared,
                        own: Shared)
    requires a.t.name != b.t.name && written !! names
    requires AgreeOutside(a, written, before, after) && Agree(b, names, before, own)
    ensures Agree(b, names, after, own)
  {
    forall key | OwnsKey(b, key) ensures SameAt(after.backoff, own.backoff, key) {
      KeysApart(a, b, key);
      assert !OwnsKey(a, key);
    }
  }

  // ---------------------------------------------------------------- what a job adds alone

  lemma MoveExtends(w: World, cfg: Config, j: Job, task: Task, sh: Shared)
    ensures Extends(sh.store, Move(w, cfg, j.t, j.s, task, sh).1.store)
  {
  }

  lemma ExtendsSelf(a: Store)
    ensures Extends(a, a)
  {
  }

  lemma ExtendsTrans(a: Store, b: Store, c: Store)
    requires Extends(a, b) && Extends(b, c)
    ensures Extends(a, c)
  {
  }

  lemma {:induction false} MovesExtend(w: World, cfg: Config, j: Job, task: Task, sh: Shared, n: nat)
    ensures Extends(sh.store, Moves(w, cfg, j.t, j.s, task, sh, n).1.store)
    decreases n
  {
    if n > 0 {
      var (next, after) := Move(w, cfg, j.t, j.s, task, sh);
      MoveExtends(w, cfg, j, task, sh);
      hide Move, Extends;
      MovesExtend(w, cfg, j, next, after, n - 1);
      ExtendsTrans(sh.store, after.store, Moves(w, cfg, j.t, j.s, next, after, n - 1).1.store);
    } else {
      ExtendsSelf(sh.store);
    }
  }

  /** What is stored at any point of the job alone is stored at its end. */
  lemma AloneExtends(w: World, cfg: Config, j: Job, sh: Shared, n: nat)
    requires j.s.Complete()
    ensures Extends(Alone(w, cfg, j, sh, n).1.store, Whole(w, cfg, j.t, j.s, sh).1.store)
  {
    hide Move, Moves, Whole, Extends;
    var m := WholeIsMoves(w, cfg, j.t, j.s, sh);
    var (task, after) := Alone(w, cfg, j, sh, n);
    WholeFinishes(w, cfg, j, sh);
    if n <= m {
      MovesAdd(w, cfg, j.t, j.s, Fetching, sh, n, m - n);
      MovesExtend(w, cfg, j, task, after, m - n);
    } else {
      var (done, last) := Alone(w, cfg, j, sh, m);
      MovesAdd(w, cfg, j.t, j.s, Fetching, sh, m, n - m);
      FinishedStays(w, cfg, j.t, j.s, done, last, n - m);
      ExtendsSelf(last.store);
    }
  }

  lemma WholeFinishes(w: World, cfg: Config, j: Job, sh: Shared)
    requires j.s.Complete()
    ensures Whole(w, cfg, j.t, j.s, sh).0.Finished?
  {
  }

  /** Every request the server processes is for a taken name or one the job adds. */
  lemma AloneCovered(w: World, cfg: Config, j: Job, sh: Shared, n: nat)
    requires j.s.Complete()
    ensures Covered(j, Alone(w, cfg, j, sh, n).0, Touched(w, cfg, j, sh))
  {
    var (task, own) := Alone(w, cfg, j, sh, n);
    if task.Creating? && !InputFor(j.s, task).fault.FailBefore? {
      AloneNext(w, cfg, j, sh, n);
      AloneExtends(w, cfg, j, sh, n + 1);
      hide Whole;
      CreatingMove(w, cfg, j, task.l, task.run, task.seen, own);
      assert task.run.name in Alone(w, cfg, j, sh, n + 1).1.store;
    }
  }

  // ---------------------------------------------------------------- schedules

  ghost predicate Legal(jobs: seq<Job>, sched: seq<nat>) {
    forall i :: 0 <= i < |sched| ==> sched[i] < |jobs|
  }

  ghost function Initial(jobs: seq<Job>, sh: Shared): Crew {
    Crew(seq(|jobs|, _ => Fetching), sh)
  }

  /** Runs the tasks in the order the schedule picks them, one step at a time. */
  ghost function Play(w: World, cfg: Config, jobs: seq<Job>, sh: Shared, sched: seq<nat>): (c: Crew)
    requires Legal(jobs, sched)
    ensures |c.tasks| == |jobs|
    decreases |sched|
  {
    if sched == [] then Initial(jobs, sh)
    else
      var c := Play(w, cfg, jobs, sh, sched[..|sched| - 1]);
      var k := sched[|sched| - 1];
      var (next, after) := Move(w, cfg, jobs[k].t, jobs[k].s, c.tasks[k], c.sh);
      Crew(c.tasks[k := next], after)
  }

  function Turns(sched: seq<nat>, k: nat): nat {
    if sched == [] then 0
    else Turns(sched[..|sched| - 1], k) + (if sched[|sched| - 1] == k then 1 else 0)
  }

  ghost function Alone(w: World, cfg: Config, j: Job, sh: Shared, n: nat): (Task, Shared) {
    Moves(w, cfg, j.t, j.s, Fetching, sh, n)
  }

  lemma AloneNext(w: World, cfg: Config, j: Job, sh: Shared, n: nat)
    ensures var (task, after) := Alone(w, cfg, j, sh, n);
            Alone(w, cfg, j, sh, n + 1) == Move(w, cfg, j.t, j.s, task, after)
  {
    MovesAdd(w, cfg, j.t, j.s, Fetching, sh, n, 1);
    var (task, after) := Alone(w, cfg, j, sh, n);
    OneMove(w, cfg, j.t, j.s, task, after);
  }

  ghost predicate InStep(w: World, cfg: Config, jobs: seq<Job>, sh: Shared, sched: seq<nat>, k: nat)
    requires AllComplete(jobs) && Legal(jobs, sched) && k < |jobs|
  {
    var c := Play(w, cfg, jobs, sh, sched);
    var (task, own) := Alone(w, cfg, jobs[k], sh, Turns(sched, k));
    && c.tasks[k] == task && TaskOf(w, cfg, jobs[k], task)
    && Agree(jobs[k], Touched(w, cfg, jobs[k], sh), c.sh, own)
    && Extends(sh.store, c.sh.store)
  }

  /** Whatever the others do, each task is where it would be alone after as many steps, and
      so are its backoff keys and the names it adds. */
  lemma {:induction false} Projection(w: World, cfg: Config, jobs: seq<Job>, sh: Shared, sched: seq<nat>, k: nat)
    requires AllComplete(jobs) && DistinctNames(jobs) && Apart(w, cfg, jobs, sh) && Legal(jobs, sched) && k < |jobs|
    ensures InStep(w, cfg, jobs, sh, sched, k)
    decreases |sched|
  {
    if sched == [] {
      FetchingTaskOf(w, cfg, jobs[k]);
    } else {
      var init, m := sched[..|sched| - 1], sched[|sched| - 1];
      Projection(w, cfg, jobs, sh, init, k);
      Projection(w, cfg, jobs, sh, init, m);
      if m == k {
        OwnTurn(w, cfg, jobs, sh, init, k);
      } else {
        OthersTurn(w, cfg, jobs, sh, init, m, k);
      }
      assert sched == init + [m];
    }
  }

  lemma OwnTurn(w: World, cfg: Config, jobs: seq<Job>, sh: Shared, sched: seq<nat>, k: nat)
    requires AllComplete(jobs) && Legal(jobs, sched) && k < |jobs| && InStep(w, cfg, jobs, sh, sched, k)
    ensures Legal(jobs, sched + [k]) && InStep(w, cfg, jobs, sh, sched + [k], k)
  {
    assert (sched + [k])[..|sched|] == sched;
    var c := Play(w, cfg, jobs, sh, sched);
    var (task, own) := Alone(w, cfg, jobs[k], sh, Turns(sched, k));
    AloneNext(w, cfg, jobs[k], sh, Turns(sched, k));
    AloneCovered(w, cfg, jobs[k], sh, Turns(sched, k));
    hide Move, Alone, Touched, TaskOf, Covered, Agree;
    MoveIsLocal(w, cfg, jobs[k], task, Touched(w, cfg, jobs[k], sh), c.sh, own);
    MoveKeepsTaskOf(w, cfg, jobs[k], task, own);
    MoveExtends(w, cfg, jobs[k], task, c.sh);
  }

  /** The turn of a task writes only names that it adds. */
  lemma TurnOutside(w: World, cfg: Config, jobs: seq<Job>, sh: Shared, sched: seq<nat>, m: nat)
    requires AllComplete(jobs) && Legal(jobs, sched) && m < |jobs| && InStep(w, cfg, jobs, sh, sched, m)
    ensures Legal(jobs, sched + [m])
    ensures AgreeOutside(jobs[m], Added(w, cfg, jobs[m], sh), Play(w, cfg, jobs, sh, sched).sh,
                         Play(w, cfg, jobs, sh, sched + [m]).sh)
    ensures Extends(Play(w, cfg, jobs, sh, sched).sh.store, Play(w, cfg, jobs, sh, sched + [m]).sh.store)
  {
    assert (sched + [m])[..|sched|] == sched;
    var c := Play(w, cfg, jobs, sh, sched);
    AloneCovered(w, cfg, jobs[m], sh, Turns(sched, m));
    hide Move, Alone, Added, TaskOf, AgreeOutside;
    MoveStaysInside(w, cfg, jobs[m], c.tasks[m], Added(w, cfg, jobs[m], sh), c.sh);
    MoveExtends(w, cfg, jobs[m], c.tasks[m], c.sh);
  }

  lemma OthersTurn(w: World, cfg: Config, jobs: seq<Job>, sh: Shared, sched: seq<nat>, m: nat, k: nat)
    requires AllComplete(jobs) && DistinctNames(jobs) && Apart(w, cfg, jobs, sh) && Legal(jobs, sched)
    requires m < |jobs| && k < |jobs| && m != k
    requires InStep(w, cfg, jobs, sh, sched, m) && InStep(w, cfg, jobs, sh, sched, k)
    ensures Legal(jobs, sched + [m]) && InStep(w, cfg, jobs, sh, sched + [m], k)
  {
    assert (sched + [m])[..|sched|] == sched;
    TurnOutside(w, cfg, jobs, sh, sched, m);
    var c, c' := Play(w, cfg, jobs, sh, sched), Play(w, cfg, jobs, sh, sched + [m]);
    var own := Alone(w, cfg, jobs[k], sh, Turns(sched, k)).1;
    var written := Added(w, cfg, jobs[m], sh);
    assert written !! Touched(w, cfg, jobs[k], sh);
    assert Turns(sched + [m], k) == Turns(sched, k) && c'.tasks[k] == c.tasks[k];
    hide Move, Moves, Alone, Added, Touched, TaskOf, Agree, AgreeOutside, Apart, Play, Turns;
    OthersUntouched(jobs[m], written, jobs[k], Touched(w, cfg, jobs[k], sh), c.sh, c'.sh, own);
  }

  lemma FetchingTaskOf(w: World, cfg: Config, j: Job)
    ensures TaskOf(w, cfg, j, Fetching)
  {
  }

  /** What no job touches never changes. */
  ghost predicate AgreeUntouched(w: World, cfg: Config, jobs: seq<Job>, sh: Shared, now: Shared)
    requires AllComplete(jobs)
  {
    && (forall key :: (forall j :: j in jobs ==> !OwnsKey(j, key)) ==> SameAt(now.backoff, sh.backoff, key))
    && (forall name :: (forall k :: 0 <= k < |jobs| ==> name !in Added(w, cfg, jobs[k], sh)) ==>
        SameAt(now.store, sh.store, name))
  }

  lemma {:induction false} Untouched(w: World, cfg: Config, jobs: seq<Job>, sh: Shared, sched: seq<nat>)
    requires AllComplete(jobs) && DistinctNames(jobs) && Apart(w, cfg, jobs, sh) && Legal(jobs, sched)
    ensures AgreeUntouched(w, cfg, jobs, sh, Play(w, cfg, jobs, sh, sched).sh)
    decreases |sched|
  {
    if sched != [] {
      var init, m := sched[..|sched| - 1], sched[|sched| - 1];
      Untouched(w, cfg, jobs, sh, init);
      Projection(w, cfg, jobs, sh, init, m);
      TurnOutside(w, cfg, jobs, sh, init, m);
      assert sched == init + [m] && jobs[m] in jobs;
      hide Play, InStep, AgreeUntouched, AgreeOutside;
      UntouchedTrans(w, cfg, jobs, sh, Play(w, cfg, jobs, sh, init).sh, Play(w, cfg, jobs, sh, sched).sh, m);
    }
  }

  lemma UntouchedTrans(w: World, cfg: Config, jobs: seq<Job>, sh: Shared, before: Shared, after: Shared, m: nat)
    requires AllComplete(jobs) && m < |jobs| && AgreeUntouched(w, cfg, jobs, sh, before)
    requires AgreeOutside(jobs[m], Added(w, cfg, jobs[m], sh), before, after)
    ensures AgreeUntouched(w, cfg, jobs, sh, after)
  {
    hide Added, OwnsKey;
    assert jobs[m] in jobs;
    forall key | forall j :: j in jobs ==> !OwnsKey(j, key) ensures SameAt(after.backoff, sh.backoff, key) {
      assert SameAt(before.backoff, after.backoff, key) && SameAt(before.backoff, sh.backoff, key);
    }
    forall name | forall k :: 0 <= k < |jobs| ==> name !in Added(w, cfg, jobs[k], sh)
      ensures SameAt(after.store, sh.store, name)
    {
      assert SameAt(before.store, after.store, name) && SameAt(before.store, sh.store, name);
    }
  }

  ghost predicate AllDone(c: Crew) {
    forall k :: 0 <= k < |c.tasks| ==> c.tasks[k].Finished?
  }

  /** A job that has finished has finished the same way however many steps it was offered. */
  lemma AloneUnique(w: World, cfg: Config, j: Job, sh: Shared, m: nat, n: nat)
    requires Alone(w, cfg, j, sh, m).0.Finished? && Alone(w, cfg, j, sh, n).0.Finished?
    ensures Alone(w, cfg, j, sh, m) == Alone(w, cfg, j, sh, n)
  {
    var lo, hi := if m <= n then m else n, if m <= n then n else m;
    var (task, after) := Alone(w, cfg, j, sh, lo);
    MovesAdd(w, cfg, j.t, j.s, Fetching, sh, lo, hi - lo);
    FinishedStays(w, cfg, j.t, j.s, task, after, hi - lo);
  }

  lemma EqualEverywhere<V>(a: map<string, V>, b: map<string, V>)
    requires forall key :: SameAt(a, b, key)
    ensures a == b
  {
    assert forall key :: key in a <==> key in b by {
      forall key ensures key in a <==> key in b { assert SameAt(a, b, key); }
    }
    forall key | key in a ensures a[key] == b[key] { assert SameAt(a, b, key); }
  }

  /** When no two jobs add one name alone, any two complete interleavings end in the same store
      and backoff table, and every target's task ends as if it had been alone: a failing target
      changes nothing for others. */
  lemma Confluence(w: World, cfg: Config, jobs: seq<Job>, sh: Shared, s1: seq<nat>, s2: seq<nat>)
    requires AllComplete(jobs) && DistinctNames(jobs) && Apart(w, cfg, jobs, sh) && Legal(jobs, s1) && Legal(jobs, s2)
    requires AllDone(Play(w, cfg, jobs, sh, s1)) && AllDone(Play(w, cfg, jobs, sh, s2))
    ensures Play(w, cfg, jobs, sh, s1) == Play(w, cfg, jobs, sh, s2)
    ensures forall k :: 0 <= k < |jobs| ==>
              Play(w, cfg, jobs, sh, s1).tasks[k] == Whole(w, cfg, jobs[k].t, jobs[k].s, sh).0
  {
    var c1, c2 := Play(w, cfg, jobs, sh, s1), Play(w, cfg, jobs, sh, s2);
    forall k | 0 <= k < |jobs|
      ensures c1.tasks[k] == c2.tasks[k] && Agree(jobs[k], Touched(w, cfg, jobs[k], sh), c1.sh, c2.sh)
      ensures c1.tasks[k] == Whole(w, cfg, jobs[k].t, jobs[k].s, sh).0
    {
      JobAgrees(w, cfg, jobs, sh, s1, s2, k);
    }
    Untouched(w, cfg, jobs, sh, s1);
    Untouched(w, cfg, jobs, sh, s2);
    hide Play, Whole, Added, Apart;
    forall key ensures SameAt(c1.sh.backoff, c2.sh.backoff, key) {
      if exists j :: j in jobs && OwnsKey(j, key) {
        var j :| j in jobs && OwnsKey(j, key);
        var k :| 0 <= k < |jobs| && jobs[k] == j;
        assert Agree(jobs[k], Touched(w, cfg, jobs[k], sh), c1.sh, c2.sh);
      } else {
        assert SameAt(c1.sh.backoff, sh.backoff, key) && SameAt(c2.sh.backoff, sh.backoff, key);
      }
    }
    forall name ensures SameAt(c1.sh.store, c2.sh.store, name) {
      if exists k :: 0 <= k < |jobs| && name in Added(w, cfg, jobs[k], sh) {
        var k :| 0 <= k < |jobs| && name in Added(w, cfg, jobs[k], sh);
        assert Agree(jobs[k], Touched(w, cfg, jobs[k], sh), c1.sh, c2.sh);
      } else {
        assert SameAt(c1.sh.store, sh.store, name) && SameAt(c2.sh.store, sh.store, name);
      }
    }
    EqualEverywhere(c1.sh.backoff, c2.sh.backoff);
    EqualEverywhere(c1.sh.store, c2.sh.store);
    assert c1.tasks == c2.tasks;
  }

  lemma JobAgrees(w: World, cfg: Config, jobs: seq<Job>, sh: Shared, s1: seq<nat>, s2: seq<nat>, k: nat)
    requires AllComplete(jobs) && DistinctNames(jobs) && Apart(w, cfg, jobs, sh) && Legal(jobs, s1) && Legal(jobs, s2)
    requires k < |jobs|
    requires Play(w, cfg, jobs, sh, s1).tasks[k].Finished? && Play(w, cfg, jobs, sh, s2).tasks[k].Finished?
    ensures var c1, c2 := Play(w, cfg, jobs, sh, s1), Play(w, cfg, jobs, sh, s2);
            && c1.tasks[k] == c2.tasks[k] == Whole(w, cfg, jobs[k].t, jobs[k].s, sh).0
            && Agree(jobs[k], Touched(w, cfg, jobs[k], sh), c1.sh, c2.sh)
  {
    Projection(w, cfg, jobs, sh, s1, k);
    Projection(w, cfg, jobs, sh, s2, k);
    AloneUnique(w, cfg, jobs[k], sh, Turns(s1, k), Turns(s2, k));
    var n := WholeIsMoves(w, cfg, jobs[k].t, jobs[k].s, sh);
    WholeFinishes(w, cfg, jobs[k], sh);
    AloneUnique(w, cfg, jobs[k], sh, Turns(s1, k), n);
    hide Play, Whole, Moves, Touched, TaskOf, Apart;
  }

  // ---------------------------------------------------------------- one after another

  /** The targets run to completion one after another, in snapshot order. */
  ghost function Sequential(w: World, cfg: Config, jobs: seq<Job>, sh: Shared, n: nat): Shared
    requires n <= |jobs| && AllComplete(jobs)
    decreases n
  {
    if n == 0 then sh
    else
      var before := Sequential(w, cfg, jobs, sh, n - 1);
      Whole(w, cfg, jobs[n - 1].t, jobs[n - 1].s, before).1
  }

  lemma {:induction false} PlayOne(w: World, cfg: Config, jobs: seq<Job>, sh: Shared, sched: seq<nat>, k: nat, n: nat)
    requires Legal(jobs, sched) && k < |jobs|
    ensures Legal(jobs, sched + seq(n, _ => k))
    ensures var c := Play(w, cfg, jobs, sh, sched);
            var (task, after) := Moves(w, cfg, jobs[k].t, jobs[k].s, c.tasks[k], c.sh, n);
            Play(w, cfg, jobs, sh, sched + seq(n, _ => k)) == Crew(c.tasks[k := task], after)
    decreases n
  {
    hide Move;
    var c := Play(w, cfg, jobs, sh, sched);
    var all := sched + seq(n, _ => k);
    if n == 0 {
      assert all == sched;
      assert c.tasks[k := c.tasks[k]] == c.tasks;
    } else {
      var less := sched + seq(n - 1, _ => k);
      assert all[..|all| - 1] == less;
      PlayOne(w, cfg, jobs, sh, sched, k, n - 1);
      MovesAdd(w, cfg, jobs[k].t, jobs[k].s, c.tasks[k], c.sh, n - 1, 1);
      var (task, after) := Moves(w, cfg, jobs[k].t, jobs[k].s, c.tasks[k], c.sh, n - 1);
      OneMove(w, cfg, jobs[k].t, jobs[k].s, task, after);
    }
  }

  lemma {:induction false} SequentialSchedule(w: World, cfg: Config, jobs: seq<Job>, sh: Shared, n: nat)
    returns (sched: seq<nat>)
    requires n <= |jobs| && AllComplete(jobs)
    ensures Legal(jobs, sched)
    ensures var c := Play(w, cfg, jobs, sh, sched);
            && c.sh == Sequential(w, cfg, jobs, sh, n)
            && (forall k :: 0 <= k < n ==> c.tasks[k].Finished?)
            && (forall k :: n <= k < |jobs| ==> c.tasks[k] == Fetching)
    decreases n
  {
    hide Move;
    if n == 0 {
      sched := [];
    } else {
      var k := n - 1;
      var before := SequentialSchedule(w, cfg, jobs, sh, k);
      var c := Play(w, cfg, jobs, sh, before);
      var m := WholeIsMoves(w, cfg, jobs[k].t, jobs[k].s, c.sh);
      PlayOne(w, cfg, jobs, sh, before, k, m);
      sched := before + seq(m, _ => k);
    }
  }

  /** Every complete interleaving is equivalent to running the targets in order. */
  lemma InterleavingIsSequential(w: World, cfg: Config, jobs: seq<Job>, sh: Shared, sched: seq<nat>)
    requires AllComplete(jobs) && DistinctNames(jobs) && Apart(w, cfg, jobs, sh) && Legal(jobs, sched)
    requires AllDone(Play(w, cfg, jobs, sh, sched))
    ensures Play(w, cfg, jobs, sh, sched).sh == Sequential(w, cfg, jobs, sh, |jobs|)
  {
    var other := SequentialSchedule(w, cfg, jobs, sh, |jobs|);
    Confluence(w, cfg, jobs, sh, sched, other);
  }

  // ---------------------------------------------------------------- when names meet

  /** What a step adds is a run of the job's scope under a name it may propose. */
  lemma MoveMints(w: World, cfg: Config, j: Job, task: Task, sh: Shared, name: string)
    requires TaskOf(w, cfg, j, task)
    requires name in Move(w, cfg, j.t, j.s, task, sh).1.store && name !in sh.store
    ensures MayPropose(w, cfg, j, name) && InScope(j.t.scope, Move(w, cfg, j.t, j.s, task, sh).1.store[name])
  {
    if task.Creating? {
      var l := task.l;
      CreatingMove(w, cfg, j, l, task.run, task.seen, sh);
      SentName(j.t, task.run, InputFor(j.s, task).clock);
      assert Proposes(w, cfg, j, l.alerts[l.i], l.runs, name);
      BuiltFacts(w, l.alerts[l.i], GroupOf(w, cfg, l.alerts[l.i]), j.t.id);
      ScopedFacts(j.t.scope, task.run);
    } else if !task.Settling? {
      MoveKeepsShared(w, cfg, j, task, sh);
    }
  }

  lemma {:induction false} MovesMint(w: World, cfg: Config, j: Job, task: Task, sh: Shared, n: nat, name: string)
    requires TaskOf(w, cfg, j, task)
    requires name in Moves(w, cfg, j.t, j.s, task, sh, n).1.store && name !in sh.store
    ensures MayPropose(w, cfg, j, name) && InScope(j.t.scope, Moves(w, cfg, j.t, j.s, task, sh, n).1.store[name])
    decreases n
  {
    hide Move, TaskOf, MayPropose, InScope;
    if n > 0 {
      var (next, after) := Move(w, cfg, j.t, j.s, task, sh);
      if name in after.store {
        MoveMints(w, cfg, j, task, sh, name);
        MovesExtend(w, cfg, j, next, after, n - 1);
      } else {
        MoveKeepsTaskOf(w, cfg, j, task, sh);
        MovesMint(w, cfg, j, next, after, n - 1, name);
      }
    }
  }

  lemma AddedFacts(w: World, cfg: Config, j: Job, sh: Shared, name: string)
    requires j.s.Complete() && name in Added(w, cfg, j, sh)
    ensures MayPropose(w, cfg, j, name) && InScope(j.t.scope, Whole(w, cfg, j.t, j.s, sh).1.store[name])
  {
    var n := WholeIsMoves(w, cfg, j.t, j.s, sh);
    FetchingTaskOf(w, cfg, j);
    MovesMint(w, cfg, j, Fetching, sh, n, name);
  }

  ghost predicate DoneOrFresh(c: Crew) {
    forall k :: 0 <= k < |c.tasks| ==> c.tasks[k].Finished? || c.tasks[k].Fetching?
  }

  /** A schedule that leaves tasks whole is completed by running those that have not begun. */
  lemma {:induction false} FinishFrom(w: World, cfg: Config, jobs: seq<Job>, sh: Shared, sched: seq<nat>, n: nat)
    returns (all: seq<nat>)
    requires AllComplete(jobs) && Legal(jobs, sched) && n <= |jobs| && DoneOrFresh(Play(w, cfg, jobs, sh, sched))
    requires forall k :: 0 <= k < n ==> Play(w, cfg, jobs, sh, sched).tasks[k].Finished?
    ensures Legal(jobs, all) && AllDone(Play(w, cfg, jobs, sh, all))
    ensures Extends(Play(w, cfg, jobs, sh, sched).sh.store, Play(w, cfg, jobs, sh, all).sh.store)
    decreases |jobs| - n
  {
    hide Move, Moves, Whole, Play;
    if n == |jobs| {
      return sched;
    }
    var c := Play(w, cfg, jobs, sh, sched);
    if c.tasks[n].Finished? {
      all := FinishFrom(w, cfg, jobs, sh, sched, n + 1);
    } else {
      var m := WholeIsMoves(w, cfg, jobs[n].t, jobs[n].s, c.sh);
      WholeFinishes(w, cfg, jobs[n], c.sh);
      PlayOne(w, cfg, jobs, sh, sched, n, m);
      MovesExtend(w, cfg, jobs[n], Fetching, c.sh, m);
      all := FinishFrom(w, cfg, jobs, sh, sched + seq(m, _ => n), n + 1);
    }
  }

  /** A complete schedule that begins with one whole task, and so keeps what that task adds. */
  lemma FirstGoes(w: World, cfg: Config, jobs: seq<Job>, sh: Shared, i: nat) returns (all: seq<nat>)
    requires AllComplete(jobs) && i < |jobs|
    ensures Legal(jobs, all) && AllDone(Play(w, cfg, jobs, sh, all))
    ensures Extends(Whole(w, cfg, jobs[i].t, jobs[i].s, sh).1.store, Play(w, cfg, jobs, sh, all).sh.store)
  {
    var m := WholeIsMoves(w, cfg, jobs[i].t, jobs[i].s, sh);
    WholeFinishes(w, cfg, jobs[i], sh);
    EmptyPlay(w, cfg, jobs, sh);
    hide Move, Moves, Whole, Play;
    PlayOne(w, cfg, jobs, sh, [], i, m);
    all := FinishFrom(w, cfg, jobs, sh, [] + seq(m, _ => i), 0);
  }

  lemma EmptyPlay(w: World, cfg: Config, jobs: seq<Job>, sh: Shared)
    ensures Play(w, cfg, jobs, sh, []) == Initial(jobs, sh)
  {
  }

  /** When two jobs add one name, the one that goes first leaves its own run under it. */
  lemma MeetingSplits(w: World, cfg: Config, jobs: seq<Job>, sh: Shared, i: nat, j: nat, name: string)
    returns (s1: seq<nat>, s2: seq<nat>)
    requires AllComplete(jobs) && i < |jobs| && j < |jobs| && jobs[i].t.scope != jobs[j].t.scope
    requires name in Added(w, cfg, jobs[i], sh) && name in Added(w, cfg, jobs[j], sh)
    ensures Legal(jobs, s1) && AllDone(Play(w, cfg, jobs, sh, s1))
    ensures Legal(jobs, s2) && AllDone(Play(w, cfg, jobs, sh, s2))
    ensures Play(w, cfg, jobs, sh, s1).sh.store != Play(w, cfg, jobs, sh, s2).sh.store
  {
    AddedFacts(w, cfg, jobs[i], sh, name);
    AddedFacts(w, cfg, jobs[j], sh, name);
    s1 := FirstGoes(w, cfg, jobs, sh, i);
    s2 := FirstGoes(w, cfg, jobs, sh, j);
    hide Play, Whole, InScope, MayPropose;
    var r1, r2 := Play(w, cfg, jobs, sh, s1).sh.store[name], Play(w, cfg, jobs, sh, s2).sh.store[name];
    if r1 == r2 { ScopesDisjoint(jobs[i].t.scope, jobs[j].t.scope, r1); }
  }

  lemma NotApartSplits(w: World, cfg: Config, jobs: seq<Job>, sh: Shared) returns (s1: seq<nat>, s2: seq<nat>)
    requires AllComplete(jobs) && DistinctScopes(jobs) && !Apart(w, cfg, jobs, sh)
    ensures Legal(jobs, s1) && AllDone(Play(w, cfg, jobs, sh, s1))
    ensures Legal(jobs, s2) && AllDone(Play(w, cfg, jobs, sh, s2))
    ensures Play(w, cfg, jobs, sh, s1).sh.store != Play(w, cfg, jobs, sh, s2).sh.store
  {
    hide Play, Added, AllDone;
    var i: nat, j: nat :| i < j < |jobs| && !(Added(w, cfg, jobs[i], sh) !! Added(w, cfg, jobs[j], sh));
    var name :| name in Added(w, cfg, jobs[i], sh) && name in Added(w, cfg, jobs[j], sh);
    s1, s2 := MeetingSplits(w, cfg, jobs, sh, i, j, name);
  }

  /** All complete interleavings end alike. */
  ghost predicate Confluent(w: World, cfg: Config, jobs: seq<Job>, sh: Shared) {
    forall s1, s2 :: Legal(jobs, s1) && Legal(jobs, s2)
                     && AllDone(Play(w, cfg, jobs, sh, s1)) && AllDone(Play(w, cfg, jobs, sh, s2))
                     ==> Play(w, cfg, jobs, sh, s1) == Play(w, cfg, jobs, sh, s2)
  }

  /** For any number of targets, alerts, faults and cancellations: all complete interleavings end
      alike exactly when no two tasks, each run alone, add a run of one name. */
  lemma ConfluenceIff(w: World, cfg: Config, jobs: seq<Job>, sh: Shared)
    requires AllComplete(jobs) && DistinctNames(jobs) && DistinctScopes(jobs)
    ensures Confluent(w, cfg, jobs, sh) <==> Apart(w, cfg, jobs, sh)
  {
    hide Play, Apart, AllDone;
    if Apart(w, cfg, jobs, sh) {
      forall s1, s2 | Legal(jobs, s1) && Legal(jobs, s2)
                      && AllDone(Play(w, cfg, jobs, sh, s1)) && AllDone(Play(w, cfg, jobs, sh, s2))
        ensures Play(w, cfg, jobs, sh, s1) == Play(w, cfg, jobs, sh, s2)
      {
        Confluence(w, cfg, jobs, sh, s1, s2);
      }
    } else {
      var s1, s2 := NotApartSplits(w, cfg, jobs, sh);
    }
  }

  // ---------------------------------------------------------------- a condition known beforehand

  /** Only an EmergencyStopped run in the listing makes the job ask for a retry name. */
  ghost predicate MayRetry(w: World, cfg: Config, j: Job, x: Alert)
    requires x.startsAt.Some?
  {
    j.s.listed.Some? &&
    HasEmergencyStoppedNameConflict(BaseName(w, x, x.startsAt.value, j.t.id), GroupOf(w, cfg, x), j.s.listed.value,
                                    w.phaseOf)
  }

  /** A condition one can check beforehand: distinct occurrence hashes across targets, and, where
      a retry name may be asked for, room in the base name for the largest retry suffix and no
      hash of the other target that reads as a retry number. */
  ghost predicate RoomyAndDistinct(w: World, cfg: Config, a: Job, b: Job) {
    HashesDiffer(w, a, b) && Roomy(w, cfg, a, b) && Roomy(w, cfg, b, a)
  }

  ghost predicate HashesDiffer(w: World, a: Job, b: Job) {
    forall x, y :: InJob(a, x) && InJob(b, y) ==> HashOf(w, a, x) != HashOf(w, b, y)
  }

  ghost predicate Unstopped(w: World, j: Job) {
    j.s.listed.Some? ==> forall r :: r in j.s.listed.value ==> w.phaseOf(r.conditions) != EmergencyStopped
  }

  ghost predicate Roomy(w: World, cfg: Config, j: Job, other: Job) {
    forall x :: InJob(j, x) && MayRetry(w, cfg, j, x) ==>
      && |BaseName(w, x, x.startsAt.value, j.t.id)| <= Room(Bound(j.s) + 1)
      && forall y, i :: InJob(other, y) && 1 <= i <= Bound(j.s) + 1 ==> HashOf(w, other, y) != Decimal(i)
  }

  /** Base names of at most 49 characters and fewer than ten million runs always leave room. */
  lemma ShortIsRoomy(w: World, cfg: Config, j: Job, other: Job)
    requires Bound(j.s) + 1 < 10_000_000
    requires forall x :: InJob(j, x) ==> |BaseName(w, x, x.startsAt.value, j.t.id)| <= 49
    ensures Roomy(w, cfg, j, other)
  {
    forall i: nat | i < 10_000_000 ensures |Decimal(i)| <= 7 {
      PowTen();
      DecimalLength(i, 7);
    }
    assert |Suffix(Bound(j.s) + 1)| <= 14;
    forall y, i | InJob(other, y) && 1 <= i <= Bound(j.s) + 1 ensures HashOf(w, other, y) != Decimal(i) {
      assert |HashOf(w, other, y)| == 8;
    }
  }

  /** Without a stopped run in its listing a job asks for base names only, however long. */
  lemma UnstoppedIsRoomy(w: World, cfg: Config, j: Job, other: Job)
    requires Unstopped(w, j)
    ensures Roomy(w, cfg, j, other)
  {
    forall x | InJob(j, x) ensures !MayRetry(w, cfg, j, x) {
      if j.s.listed.Some? {
        ConflictIff(BaseName(w, x, x.startsAt.value, j.t.id), GroupOf(w, cfg, x), j.s.listed.value, w.phaseOf);
      }
    }
  }

  predicate InJob(j: Job, a: Alert) {
    j.s.alerts.Some? && a in j.s.alerts.value && a.startsAt.Some?
  }

  function HashOf(w: World, j: Job, a: Alert): string
    requires a.startsAt.Some?
  {
    OccurrenceHash(w.rfc3339(a.startsAt.value), j.t.id, w.sha)
  }

  /** Under that condition on every two targets, whatever their alerts, faults and cancellations,
      no two tasks add one name, so that every interleaving ends alike. */
  lemma RoomyNamesApart(w: World, cfg: Config, jobs: seq<Job>, sh: Shared)
    requires w.Valid() && AllComplete(jobs)
    requires forall i, j :: 0 <= i < j < |jobs| ==> RoomyAndDistinct(w, cfg, jobs[i], jobs[j])
    ensures Apart(w, cfg, jobs, sh)
  {
    hide RoomyAndDistinct, Added;
    forall i, j | 0 <= i < j < |jobs| ensures Added(w, cfg, jobs[i], sh) !! Added(w, cfg, jobs[j], sh) {
      RoomyPairApart(w, cfg, jobs[i], jobs[j], sh);
    }
  }

  /** The ordinary cycle: nothing stopped in the listings and distinct occurrence hashes. */
  lemma UnstoppedApart(w: World, cfg: Config, jobs: seq<Job>, sh: Shared)
    requires w.Valid() && AllComplete(jobs)
    requires forall j :: j in jobs ==> Unstopped(w, j)
    requires forall i, j :: 0 <= i < j < |jobs| ==> HashesDiffer(w, jobs[i], jobs[j])
    ensures Apart(w, cfg, jobs, sh)
  {
    forall i, j | 0 <= i < j < |jobs| ensures RoomyAndDistinct(w, cfg, jobs[i], jobs[j]) {
      assert jobs[i] in jobs && jobs[j] in jobs && HashesDiffer(w, jobs[i], jobs[j]);
      hide Unstopped, Roomy;
      UnstoppedIsRoomy(w, cfg, jobs[i], jobs[j]);
      UnstoppedIsRoomy(w, cfg, jobs[j], jobs[i]);
    }
    RoomyNamesApart(w, cfg, jobs, sh);
  }

  lemma RoomyPairApart(w: World, cfg: Config, a: Job, b: Job, sh: Shared)
    requires w.Valid() && a.s.Complete() && b.s.Complete() && RoomyAndDistinct(w, cfg, a, b)
    ensures Added(w, cfg, a, sh) !! Added(w, cfg, b, sh)
  {
    hide Added, RoomyAndDistinct, Proposes, NamedAs;
    forall name | name in Added(w, cfg, a, sh) ensures name !in Added(w, cfg, b, sh) {
      if name in Added(w, cfg, b, sh) {
        AddedFacts(w, cfg, a, sh, name);
        AddedFacts(w, cfg, b, sh, name);
        var x, xs :| Proposes(w, cfg, a, x, xs, name);
        var y, ys :| Proposes(w, cfg, b, y, ys, name);
        var i := ProposedForm(w, cfg, a, x, xs, name);
        var k := ProposedForm(w, cfg, b, y, ys, name);
        NamesDiffer(w, cfg, a, x, i, b, y, k, name);
      }
    }
  }

  lemma RoomyFacts(w: World, cfg: Config, j: Job, x: Alert, i: nat, other: Job, y: Alert)
    requires Roomy(w, cfg, j, other) && InJob(j, x) && InJob(other, y)
    requires i > 0 ==> MayRetry(w, cfg, j, x) && i <= Bound(j.s) + 1
    ensures i > 0 ==>
              |BaseName(w, x, x.startsAt.value, j.t.id)| <= Room(Bound(j.s) + 1) && HashOf(w, other, y) != Decimal(i)
  {
    hide MayRetry, BaseName, Room, Decimal, HashOf;
  }

  /** The name is the alert's base name (number 0) or a retry name that the job may ask for. */
  ghost predicate NamedAs(w: World, cfg: Config, j: Job, x: Alert, i: nat, name: string) {
    && InJob(j, x) && i <= Bound(j.s) + 1 && (i > 0 ==> MayRetry(w, cfg, j, x))
    && name == Form(BaseName(w, x, x.startsAt.value, j.t.id), i)
  }

  lemma BaseEnds(w: World, j: Job, x: Alert)
    requires InJob(j, x)
    ensures EndsWith(BaseName(w, x, x.startsAt.value, j.t.id), "-" + HashOf(w, j, x))
    ensures |HashOf(w, j, x)| == STARTS_AT_HASH_LEN && IsHex(HashOf(w, j, x))
  {
    BuildNameShape(Lookup(x.labels, "alertname"), Lookup(x.labels, "namespace"), HashOf(w, j, x), w.lower);
  }

  lemma NamesDiffer(w: World, cfg: Config, a: Job, x: Alert, i: nat, b: Job, y: Alert, k: nat, name: string)
    requires RoomyAndDistinct(w, cfg, a, b)
    requires NamedAs(w, cfg, a, x, i, name)
    ensures !NamedAs(w, cfg, b, y, k, name)
  {
    hide MayRetry, BaseName, Room, Decimal, EndsWith, Form, Roomy, IsHex, HashOf, Bound;
    if NamedAs(w, cfg, b, y, k, name) {
      BaseEnds(w, a, x);
      BaseEnds(w, b, y);
      RoomyFacts(w, cfg, a, x, i, b, y);
      RoomyFacts(w, cfg, b, y, k, a, x);
      FormsDiffer(BaseName(w, x, x.startsAt.value, a.t.id), HashOf(w, a, x), i, Bound(a.s) + 1,
                  BaseName(w, y, y.startsAt.value, b.t.id), HashOf(w, b, y), k, Bound(b.s) + 1);
    }
  }

  /** A base name (number 0) or a retry name. */
  function Form(base: string, i: nat): string {
    if i == 0 then base else Candidate(base, i)
  }

  lemma ProposedForm(w: World, cfg: Config, j: Job, a: Alert, runs: seq<Run>, name: string) returns (i: nat)
    requires w.Valid() && Proposes(w, cfg, j, a, runs, name)
    ensures NamedAs(w, cfg, j, a, i, name)
  {
    ProposedName(w, cfg, j.t, a, runs, j.s.now);
    var base, fp := BaseName(w, a, a.startsAt.value, j.t.id), GroupOf(w, cfg, a);
    if HasEmergencyStoppedNameConflict(base, fp, runs, w.phaseOf) {
      StoppedWasListed(w, j, base, fp, runs);
      var k :| 1 <= k <= |runs| + 1 && name == Candidate(base, k);
      i := k;
    } else {
      i := 0;
    }
  }

  /** The runs a task has added itself are fresh, so a stopped one was listed. */
  lemma StoppedWasListed(w: World, j: Job, base: string, fp: string, runs: seq<Run>)
    requires w.Valid() && CanHold(j.s, runs) && HasEmergencyStoppedNameConflict(base, fp, runs, w.phaseOf)
    ensures HasEmergencyStoppedNameConflict(base, fp, j.s.listed.value, w.phaseOf)
  {
    ConflictIff(base, fp, runs, w.phaseOf);
    ConflictIff(base, fp, j.s.listed.value, w.phaseOf);
  }

  lemma FormsDiffer(n1: string, h1: string, i: nat, m1: nat, n2: string, h2: string, k: nat, m2: nat)
    requires |h1| == |h2| == STARTS_AT_HASH_LEN && h1 != h2 && IsHex(h1) && IsHex(h2)
    requires EndsWith(n1, "-" + h1) && EndsWith(n2, "-" + h2)
    requires i > 0 ==> i <= m1 && |n1| <= Room(m1) && h2 != Decimal(i)
    requires k > 0 ==> k <= m2 && |n2| <= Room(m2) && h1 != Decimal(k)
    ensures Form(n1, i) != Form(n2, k)
  {
    if i == 0 && k == 0 {
      BaseNamesDiffer(n1, h1, n2, h2);
    } else if i == 0 {
      BaseIsRetryIff(n1, h1, n2, k);
    } else if k == 0 {
      BaseIsRetryIff(n2, h2, n1, i);
    } else {
      DecimalGrows(i, m1);
      DecimalGrows(k, m2);
      RetryNamesClashIff(n1, h1, i, n2, h2, k);
    }
  }
}
