/** Safety of deduplication: the invariant that ties every task's local run list, the backoff
    table and the store together, and its preservation by every step of the system. */
module Dedup {
  import opened Text
  import opened Runs
  import opened Backoffs
  import opened Clients
  import opened Decisions
  import opened Tasks
  import opened Protocol
  import opened Concurrency

  // ---------------------------------------------------------------- the invariant

  /** Runs that are stored, or were until no check could still need them. */
  ghost predicate Known(store: Store, archive: seq<Run>, r: Run) {
    (r.name in store && store[r.name] == r) || r in archive
  }

  /** A list entry that still says the truth about a run, as far as the checks go: it blocks the
      group, or it has the run's final terminal time. */
  ghost predicate CopyOf(w: World, c: Run, r: Run) {
    && Group(c) == Group(r)
    && (IsActive(c, w.phaseOf) ||
        (!IsActive(r, w.phaseOf) && TerminalTime(c, w.phaseOf) == TerminalTime(r, w.phaseOf)))
  }

  ghost predicate HasCopy(w: World, runs: seq<Run>, r: Run) {
    exists c :: c in runs && CopyOf(w, c, r)
  }

  ghost predicate WaitsFor(t: Target, backoff: Table, now: Time, group: string) {
    |group| == 8 && InBackoff(backoff, BackoffKey(t.name, group), now)
  }

  /** Why a task cannot wrongly create another run of r's group: it sees r, r is past its
      cooldown, the group is in backoff, or the group's own create call is just settling. */
  ghost predicate Handled(sys: System, t: Target, runs: seq<Run>, now: Time, backoff: Table, pending: Option<string>,
                          r: Run) {
    || HasCopy(sys.w, runs, r)
    || Cooled(sys, r, now)
    || WaitsFor(t, backoff, now, Group(r))
    || pending == Some(Group(r))
  }

  ghost predicate AllHandled(sys: System, store: Store, archive: seq<Run>, t: Target,
                             runs: seq<Run>, now: Time, backoff: Table, pending: Option<string>) {
    forall r :: Known(store, archive, r) && InScope(t.scope, r) ==> Handled(sys, t, runs, now, backoff, pending, r)
  }

  function Pending(sent: Run, answer: Answer): Option<string> {
    if answer.AlreadyExists? then None else Some(Group(sent))
  }

  ghost predicate LoopSafe(sys: System, sh: Shared, archive: seq<Run>, clock: Time, t: Target, l: Loop,
                           pending: Option<string>) {
    l.now <= clock && AllHandled(sys, sh.store, archive, t, l.runs, l.now, sh.backoff, pending)
  }

  ghost predicate TaskSafe(sys: System, sh: Shared, archive: seq<Run>, clock: Time, t: Target, task: Task) {
    match task
    case Stamping(_, runs) => AllHandled(sys, sh.store, archive, t, runs, clock, map[], None)
    case Scanning(l) => LoopSafe(sys, sh, archive, clock, t, l, None)
    case Creating(l, p, _) => LoopSafe(sys, sh, archive, clock, t, l, None) && ProposalSafe(sys, sh, t, l, p)
    case Settling(l, sent, _, answer) => LoopSafe(sys, sh, archive, clock, t, l, Pending(sent, answer)) &&
        SentSafe(sh, t, l, sent)
    case _ => true
  }

  ghost predicate ProposalSafe(sys: System, sh: Shared, t: Target, l: Loop, p: Run) {
    && l.i < |l.alerts|
    && Judge(sys.w, sys.cfg, t, l.alerts[l.i], l.runs, l.now) == Propose(p)
    && !InBackoff(sh.backoff, KeyOf(sys.w, sys.cfg, t, l.alerts[l.i]), l.now)
  }

  ghost predicate SentSafe(sh: Shared, t: Target, l: Loop, sent: Run) {
    && |Group(sent)| == 8 && sent.conditions == []
    && !InBackoff(sh.backoff, BackoffKey(t.name, Group(sent)), l.now)
  }

  ghost predicate DataSafe(sys: System, s: State) {
    && sys.w.Valid()
    && WellKeyed(s.sh.store)
    && (forall n :: n in s.sh.store ==> Dated(sys, s.sh.store[n], s.clock))
    && (forall r :: r in s.archive ==> Dated(sys, r, s.clock) && Cooled(sys, r, s.clock))
  }

  ghost predicate TasksSafe(sys: System, s: State) {
    forall k :: 0 <= k < |s.workers| && s.workers[k].stage.Working? ==>
      TaskSafe(sys, s.sh, s.archive, s.clock, s.workers[k].t, s.workers[k].stage.task)
  }

  /** No two tasks that meet share a target name or a scope. */
  ghost predicate Separate(sys: System, s: State) {
    sys.Capacity() == 1 || (Distinct(s.registry) && (!s.main.Idle? ==> Distinct(Snapshot(s.main))))
  }

  ghost predicate Safe(sys: System, s: State) {
    Disciplined(sys, s) && Separate(sys, s) && DataSafe(sys, s) && TasksSafe(sys, s)
  }

  // ---------------------------------------------------------------- why a proposal is safe

  /** When a run is proposed, every run of its group that was ever stored for the target is
      terminal and, with a cooldown, past it. */
  lemma ProposalIsCooled(sys: System, sh: Shared, archive: seq<Run>, clock: Time, t: Target, l: Loop, p: Run, r: Run)
    requires sys.w.Valid() && TaskSafe(sys, sh, archive, clock, t, Creating(l, p, true))
    requires Known(sh.store, archive, r) && InScope(t.scope, r)
    requires Group(r) == GroupOf(sys.w, sys.cfg, l.alerts[l.i])
    ensures Cooled(sys, r, l.now)
  {
    ProposalFacts(sys.w, sys.cfg, t, l.alerts[l.i], l.runs, l.now, clock);
    assert Handled(sys, t, l.runs, l.now, sh.backoff, None, r);
    if HasCopy(sys.w, l.runs, r) {
      var c :| c in l.runs && CopyOf(sys.w, c, r);
      PassedCopyIsCooled(sys, l.runs, l.now, c, r);
    }
  }

  lemma PassedCopyIsCooled(sys: System, runs: seq<Run>, now: Time, c: Run, r: Run)
    requires c in runs && CopyOf(sys.w, c, r)
    requires !HasActiveRun(Group(r), runs, sys.w.phaseOf)
    requires sys.cfg.postRunDelay > 0 ==> !TooRecent(Group(r), runs, now, sys.cfg.postRunDelay, sys.w.phaseOf)
    ensures Cooled(sys, r, now)
  {
    HasActiveRunIff(Group(r), runs, sys.w.phaseOf);
    TooRecentIff(Group(r), runs, now, sys.cfg.postRunDelay, sys.w.phaseOf);
  }

  // ---------------------------------------------------------------- a task's own steps

  lemma ListingCovers(sys: System, sh: Shared, archive: seq<Run>, clock: Time, t: Target, listed: seq<Run>)
    requires IsListing(sh.store, t.scope, listed)
    requires forall r :: r in archive ==> Cooled(sys, r, clock)
    ensures AllHandled(sys, sh.store, archive, t, listed, clock, map[], None)
  {
    forall r | Known(sh.store, archive, r) && InScope(t.scope, r)
      ensures Handled(sys, t, listed, clock, map[], None, r)
    {
      if r.name in sh.store && sh.store[r.name] == r {
        assert r in listed && CopyOf(sys.w, r, r);
      }
    }
  }

  lemma StampingStep(sys: System, sh: Shared, archive: seq<Run>, clock: Time, t: Target, runs: seq<Run>)
    requires AllHandled(sys, sh.store, archive, t, runs, clock, map[], None)
    ensures AllHandled(sys, sh.store, archive, t, runs, clock, sh.backoff, None)
  {
    forall r | Known(sh.store, archive, r) && InScope(t.scope, r)
      ensures Handled(sys, t, runs, clock, sh.backoff, None, r)
    {
      assert Handled(sys, t, runs, clock, map[], None, r);
    }
  }

  /** The server's part: whatever was stored is still there, and only `sent` can be new. */
  lemma ServeKnown(store: Store, archive: seq<Run>, sent: Run, fault: Fault, r: Run)
    ensures Known(ServeCreate(store, sent, fault).0, archive, r) ==>
              Known(store, archive, r) || (r == sent && !ServeCreate(store, sent, fault).1.AlreadyExists?)
  {
  }

  lemma SentFacts(sys: System, sh: Shared, clock: Time, t: Target, l: Loop, p: Run)
    requires sys.w.Valid() && ProposalSafe(sys, sh, t, l, p)
    ensures var sent := Sent(t, p, clock);
            && SentSafe(sh, t, l, sent)
            && Group(sent) == GroupOf(sys.w, sys.cfg, l.alerts[l.i])
            && InScope(t.scope, sent)
  {
    ProposalFacts(sys.w, sys.cfg, t, l.alerts[l.i], l.runs, l.now, clock);
  }

  lemma ServeHandled(sys: System, sh: Shared, archive: seq<Run>, t: Target, l: Loop, sent: Run, fault: Fault)
    requires AllHandled(sys, sh.store, archive, t, l.runs, l.now, sh.backoff, None)
    ensures var (store, answer) := ServeCreate(sh.store, sent, fault);
            AllHandled(sys, store, archive, t, l.runs, l.now, sh.backoff, Pending(sent, answer))
  {
    var (store, answer) := ServeCreate(sh.store, sent, fault);
    forall r | Known(store, archive, r) && InScope(t.scope, r)
      ensures Handled(sys, t, l.runs, l.now, sh.backoff, Pending(sent, answer), r)
    {
      ServeKnown(sh.store, archive, sent, fault, r);
      if r != sent || answer.AlreadyExists? {
        assert Handled(sys, t, l.runs, l.now, sh.backoff, None, r);
      }
    }
  }

  lemma CreatingStep(sys: System, sh: Shared, archive: seq<Run>, clock: Time, t: Target, l: Loop, p: Run, seen: bool,
                     fault: Fault)
    requires sys.w.Valid() && TaskSafe(sys, sh, archive, clock, t, Creating(l, p, seen))
    ensures var sent := Sent(t, p, clock);
            var (store, answer) := ServeCreate(sh.store, sent, fault);
            TaskSafe(sys, sh.(store := store), archive, clock, t, Settling(l, sent, seen, answer))
  {
    var sent := Sent(t, p, clock);
    var (store, answer) := ServeCreate(sh.store, sent, fault);
    SentFacts(sys, sh, clock, t, l, p);
    ServeHandled(sys, sh, archive, t, l, Sent(t, p, clock), fault);
  }

  lemma CopyKept(w: World, runs: seq<Run>, sent: Run, r: Run)
    ensures HasCopy(w, runs, r) ==> HasCopy(w, runs + [sent], r)
    ensures IsActive(sent, w.phaseOf) && Group(sent) == Group(r) ==> HasCopy(w, runs + [sent], r)
  {
    if HasCopy(w, runs, r) {
      var c :| c in runs && CopyOf(w, c, r);
      assert c in runs + [sent];
    }
    assert sent in runs + [sent];
  }

  /** Updating one group's entry leaves the waiting of other groups alone; a failure makes its
      own group wait, at least for the moment its task looked at the clock. */
  lemma SettledWaits(t: Target, backoff: Table, own: string, now: Time, seen: bool, answer: Answer, stamp: Time,
                     group: string)
    requires |own| == 8 && now <= stamp
    ensures var after := SettledBackoff(backoff, BackoffKey(t.name, own), now, seen, answer, stamp);
            && (group != own ==> WaitsFor(t, after, now, group) == WaitsFor(t, backoff, now, group))
            && (answer.Errored? ==> WaitsFor(t, after, now, own))
  {
    if |group| == 8 { BackoffKeyInjective(t.name, group, t.name, own); }
  }

  lemma SettlingHandles(sys: System, t: Target, l: Loop, sent: Run, seen: bool, answer: Answer, backoff: Table,
                        stamp: Time, r: Run)
    requires |Group(sent)| == 8 && l.now <= stamp && IsActive(sent, sys.w.phaseOf)
    requires !InBackoff(backoff, BackoffKey(t.name, Group(sent)), l.now)
    requires Handled(sys, t, l.runs, l.now, backoff, Pending(sent, answer), r)
    ensures Handled(sys, t, SettledLoop(l, sent, answer).runs, l.now,
                    SettledBackoff(backoff, BackoffKey(t.name, Group(sent)), l.now, seen, answer, stamp), None, r)
  {
    SettledWaits(t, backoff, Group(sent), l.now, seen, answer, stamp, Group(r));
    CopyKept(sys.w, l.runs, sent, r);
  }

  lemma SettlingStep(sys: System, sh: Shared, archive: seq<Run>, clock: Time, t: Target, l: Loop, sent: Run, seen: bool,
                     answer: Answer)
    requires sys.w.Valid() && TaskSafe(sys, sh, archive, clock, t, Settling(l, sent, seen, answer))
    ensures TaskSafe(sys, sh.(backoff := SettledBackoff(sh.backoff, BackoffKey(t.name, Group(sent)), l.now, seen,
                                                        answer, clock)),
                     archive, clock, t, Scanning(SettledLoop(l, sent, answer)))
  {
    forall r | Known(sh.store, archive, r) && InScope(t.scope, r)
      ensures Handled(sys, t, SettledLoop(l, sent, answer).runs, l.now,
                      SettledBackoff(sh.backoff, BackoffKey(t.name, Group(sent)), l.now, seen, answer, clock), None, r)
    {
      assert Handled(sys, t, l.runs, l.now, sh.backoff, Pending(sent, answer), r);
      SettlingHandles(sys, t, l, sent, seen, answer, sh.backoff, clock, r);
    }
  }

  /** A task keeps its own part of the invariant. */
  lemma OwnStep(sys: System, sh: Shared, archive: seq<Run>, clock: Time, t: Target, task: Task, inp: Input)
    requires sys.w.Valid() && TaskSafe(sys, sh, archive, clock, t, task)
    requires inp.clock == clock
    requires task.Listing? && inp.listed.Some? ==> IsListing(sh.store, t.scope, inp.listed.value)
    requires forall r :: r in archive ==> Cooled(sys, r, clock)
    ensures var (next, after) := Step(sys.w, sys.cfg, t, task, sh, inp);
            TaskSafe(sys, after, archive, clock, t, next)
  {
    match task {
      case Listing(_) =>
        if inp.listed.Some? { ListingCovers(sys, sh, archive, clock, t, inp.listed.value); }
      case Stamping(_, runs) => StampingStep(sys, sh, archive, clock, t, runs);
      case Scanning(l) =>
      case Creating(l, p, seen) => CreatingStep(sys, sh, archive, clock, t, l, p, seen, inp.fault);
      case Settling(l, sent, seen, answer) => SettlingStep(sys, sh, archive, clock, t, l, sent, seen, answer);
      case _ =>
    }
  }
}
