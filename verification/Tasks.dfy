/** One target's reconcile task, as a sequence of steps between which anything may happen,
    and as a recursive function over its alerts when nothing does. */
module Tasks {
  import opened Text
  import opened Runs
  import opened Backoffs
  import opened Clients
  import opened Decisions

  /** The program counts `created` and `skipped`; the other three outcomes are only logged. */
  datatype Tally = Tally(created: nat, skipped: nat, buildErrors: nat, createErrors: nat, existed: nat) {
    function Total(): nat {
      created + skipped + buildErrors + createErrors + existed
    }
  }

  /** The local variables of the alert loop. */
  datatype Loop = Loop(alerts: seq<Alert>, runs: seq<Run>, now: Time, i: nat, tally: Tally)

  datatype Task =
    | Fetching
    | Listing(alerts: seq<Alert>)
    | Stamping(alerts: seq<Alert>, runs: seq<Run>)
    | Scanning(l: Loop)
    | Creating(l: Loop, run: Run, seen: bool)
    | Settling(l: Loop, run: Run, seen: bool, answer: Answer)
    | Finished(report: Option<Loop>)

  /** What the tasks share: the stored runs and the backoff table. */
  datatype Shared = Shared(store: Store, backoff: Table)

  /** The world's answers to one step. */
  datatype Input = Input(
    alerts: Option<seq<Alert>>,
    listed: Option<seq<Run>>,
    clock: Time,
    cancelled: bool,
    fault: Fault)

  function Start(alerts: seq<Alert>, runs: seq<Run>, now: Time): Loop {
    Loop(alerts, runs, now, 0, Tally(0, 0, 0, 0, 0))
  }

  ghost function KeyOf(w: World, cfg: Config, t: Target, a: Alert): string {
    BackoffKey(t.name, GroupOf(w, cfg, a))
  }

  /** The verdict on the current alert, with the backoff check. */
  ghost function Gate(w: World, cfg: Config, t: Target, l: Loop, backoff: Table): Verdict
    requires l.i < |l.alerts|
  {
    var v := Judge(w, cfg, t, l.alerts[l.i], l.runs, l.now);
    if v.Propose? && InBackoff(backoff, KeyOf(w, cfg, t, l.alerts[l.i]), l.now) then Skip else v
  }

  function Skipped(l: Loop): Loop {
    l.(i := l.i + 1, tally := l.tally.(skipped := l.tally.skipped + 1))
  }

  function BuildErrored(l: Loop): Loop {
    l.(i := l.i + 1, tally := l.tally.(buildErrors := l.tally.buildErrors + 1))
  }

  function Sent(t: Target, p: Run, clock: Time): Run {
    Scoped(t.scope, p).(created := clock)
  }

  /** A positive previous delay is what the program takes for "was in backoff". */
  function SeenBefore(backoff: Table, key: string): bool {
    key in backoff && backoff[key].delay > 0
  }

  function SettledLoop(l: Loop, sent: Run, answer: Answer): Loop {
    match answer
    case Created => l.(i := l.i + 1, runs := l.runs + [sent], tally := l.tally.(created := l.tally.created + 1))
    case AlreadyExists => l.(i := l.i + 1, tally := l.tally.(existed := l.tally.existed + 1))
    case Errored => l.(i := l.i + 1, tally := l.tally.(createErrors := l.tally.createErrors + 1))
  }

  function SettledBackoff(backoff: Table, key: string, now: Time, seen: bool, answer: Answer, stamp: Time): Table {
    if answer.Errored? then AfterFailure(backoff, key, now, stamp)
    else if seen then Cleared(backoff, key)
    else backoff
  }

  /** One step of a task. */
  ghost function Step(w: World, cfg: Config, t: Target, task: Task, sh: Shared, inp: Input): (Task, Shared) {
    match task
    case Fetching =>
      (if inp.alerts.None? then Finished(None) else Listing(inp.alerts.value), sh)
    case Listing(alerts) =>
      (if inp.listed.None? then Finished(None) else Stamping(alerts, inp.listed.value), sh)
    case Stamping(alerts, runs) =>
      (Scanning(Start(alerts, runs, inp.clock)), sh)
    case Scanning(l) =>
      if l.i >= |l.alerts| || inp.cancelled then (Finished(Some(l)), sh)
      else (Scanned(w, cfg, t, l, sh.backoff), sh)
    case Creating(l, p, seen) =>
      var sent := Sent(t, p, inp.clock);
      var (store, answer) := ServeCreate(sh.store, sent, inp.fault);
      (Settling(l, sent, seen, answer), sh.(store := store))
    case Settling(l, sent, seen, answer) =>
      if answer.Errored? && inp.cancelled then (Finished(Some(l)), sh)
      else (Scanning(SettledLoop(l, sent, answer)),
            sh.(backoff := SettledBackoff(sh.backoff, BackoffKey(t.name, Group(sent)), l.now, seen, answer, inp.clock)))
    case Finished(_) => (task, sh)
  }

  ghost function Scanned(w: World, cfg: Config, t: Target, l: Loop, backoff: Table): Task
    requires l.i < |l.alerts|
  {
    match Gate(w, cfg, t, l, backoff)
    case Skip => Scanning(Skipped(l))
    case BuildFailed => Scanning(BuildErrored(l))
    case Propose(p) => Creating(l, p, SeenBefore(backoff, KeyOf(w, cfg, t, l.alerts[l.i])))
  }

  // ---------------------------------------------------------------- a whole task at once

  /** The world's answers while one alert is processed. */
  datatype Reply = Reply(cancelledBefore: bool, created: Time, fault: Fault, cancelledAfter: bool, stamp: Time)

  /** One create call, as an observer of the API sees it. */
  datatype Call = Call(group: string, run: Run, answer: Answer)

  datatype Outcome = Outcome(l: Loop, sh: Shared, calls: seq<Call>, complete: bool)

  /** The create call for one proposed run and its settling. */
  ghost function Attempt(w: World, cfg: Config, t: Target, l: Loop, p: Run, sh: Shared, reply: Reply): Outcome
    requires l.i < |l.alerts|
  {
    var key := KeyOf(w, cfg, t, l.alerts[l.i]);
    var sent := Sent(t, p, reply.created);
    var (store, answer) := ServeCreate(sh.store, sent, reply.fault);
    var call := Call(GroupOf(w, cfg, l.alerts[l.i]), sent, answer);
    if answer.Errored? && reply.cancelledAfter then Outcome(l, sh.(store := store), [call], false)
    else
      Outcome(SettledLoop(l, sent, answer),
              Shared(store, SettledBackoff(sh.backoff, key, l.now, SeenBefore(sh.backoff, key), answer, reply.stamp)),
              [call], true)
  }

  /** One pass through the body of the alert loop; `complete` when the loop goes on. */
  ghost function Turn(w: World, cfg: Config, t: Target, l: Loop, sh: Shared, reply: Reply): Outcome
    requires l.i < |l.alerts|
  {
    if reply.cancelledBefore then Outcome(l, sh, [], false)
    else
      match Gate(w, cfg, t, l, sh.backoff)
      case Skip => Outcome(Skipped(l), sh, [], true)
      case BuildFailed => Outcome(BuildErrored(l), sh, [], true)
      case Propose(p) => Attempt(w, cfg, t, l, p, sh, reply)
  }

  lemma TurnAdvances(w: World, cfg: Config, t: Target, l: Loop, sh: Shared, reply: Reply)
    requires l.i < |l.alerts|
    ensures var o := Turn(w, cfg, t, l, sh, reply);
            && o.l.alerts == l.alerts && o.l.now == l.now && |o.calls| <= 1
            && (o.complete ==> o.l.i == l.i + 1)
            && (!o.complete ==> o.l == l)
  {
    hide Gate, GroupOf, SettledBackoff, Sent, ServeCreate;
  }

  /** The alert loop as a recursion that threads the run list and the backoff table. */
  ghost function Scan(w: World, cfg: Config, t: Target, l: Loop, sh: Shared, replies: seq<Reply>): (o: Outcome)
    requires |replies| >= |l.alerts|
    decreases |l.alerts| - l.i
  {
    if l.i >= |l.alerts| then Outcome(l, sh, [], true)
    else
      TurnAdvances(w, cfg, t, l, sh, replies[l.i]);
      var turn := Turn(w, cfg, t, l, sh, replies[l.i]);
      if !turn.complete then turn
      else
        var rest := Scan(w, cfg, t, turn.l, turn.sh, replies);
        rest.(calls := turn.calls + rest.calls)
  }

  // ---------------------------------------------------------------- conservation

  function Count(calls: seq<Call>, answer: Answer): nat {
    if calls == [] then 0 else (if calls[0].answer == answer then 1 else 0) + Count(calls[1..], answer)
  }

  lemma {:induction false} CountConcat(a: seq<Call>, b: seq<Call>, answer: Answer)
    ensures Count(a + b, answer) == Count(a, answer) + Count(b, answer)
  {
    if a == [] {
      assert a + b == b;
    } else {
      CountConcat(a[1..], b, answer);
      assert (a + b)[1..] == a[1..] + b;
    }
  }

  /** Each alert that is passed is counted once, each completed call under its answer. */
  ghost predicate Counted(before: Tally, after: Tally, passed: int, calls: seq<Call>, complete: bool) {
    && after.Total() - before.Total() == passed
    && after.created - before.created == Count(calls, Created)
    && after.existed - before.existed == Count(calls, AlreadyExists)
    && (complete ==> after.createErrors - before.createErrors == Count(calls, Errored))
  }

  lemma TurnCounts(w: World, cfg: Config, t: Target, l: Loop, sh: Shared, reply: Reply)
    requires l.i < |l.alerts|
    ensures var o := Turn(w, cfg, t, l, sh, reply);
            Counted(l.tally, o.l.tally, o.l.i - l.i, o.calls, o.complete)
  {
    hide Gate, GroupOf, SettledBackoff, Sent, ServeCreate;
    var o := Turn(w, cfg, t, l, sh, reply);
    if o.calls != [] {
      CountOne(o.calls[0]);
      assert o.calls == [o.calls[0]];
    }
  }

  lemma CountOne(c: Call)
    ensures forall a: Answer :: Count([c], a) == if c.answer == a then 1 else 0
  {
    forall a: Answer ensures Count([c], a) == if c.answer == a then 1 else 0 {
      assert [c][1..] == [];
    }
  }

  /** Every alert that is reached is counted exactly once, and calls are counted by answer;
      on a cycle that is not cut short that is every alert. */
  lemma {:induction false} ScanConserves(w: World, cfg: Config, t: Target, l: Loop, sh: Shared, replies: seq<Reply>)
    requires |replies| >= |l.alerts| && l.i <= |l.alerts|
    ensures var o := Scan(w, cfg, t, l, sh, replies);
            && l.i <= o.l.i <= |l.alerts|
            && (o.complete ==> o.l.i == |l.alerts|)
            && Counted(l.tally, o.l.tally, o.l.i - l.i, o.calls, o.complete)
    decreases |l.alerts| - l.i
  {
    if l.i < |l.alerts| {
      var turn := Turn(w, cfg, t, l, sh, replies[l.i]);
      TurnAdvances(w, cfg, t, l, sh, replies[l.i]);
      TurnCounts(w, cfg, t, l, sh, replies[l.i]);
      if turn.complete {
        ScanConserves(w, cfg, t, turn.l, turn.sh, replies);
        var rest := Scan(w, cfg, t, turn.l, turn.sh, replies);
        CountConcat(turn.calls, rest.calls, Created);
        CountConcat(turn.calls, rest.calls, AlreadyExists);
        CountConcat(turn.calls, rest.calls, Errored);
      }
    }
  }

  function CreatedRuns(calls: seq<Call>): seq<Run> {
    if calls == [] then []
    else (if calls[0].answer.Created? then [calls[0].run] else []) + CreatedRuns(calls[1..])
  }

  lemma {:induction false} CreatedRunsConcat(a: seq<Call>, b: seq<Call>)
    ensures CreatedRuns(a + b) == CreatedRuns(a) + CreatedRuns(b)
  {
    if a == [] {
      assert a + b == b;
    } else {
      CreatedRunsConcat(a[1..], b);
      assert (a + b)[1..] == a[1..] + b;
      var head := if a[0].answer.Created? then [a[0].run] else [];
      assert head + (CreatedRuns(a[1..]) + CreatedRuns(b)) == head + CreatedRuns(a[1..]) + CreatedRuns(b);
    }
  }

  /** What the calls did to the store and the run list: stored runs stay, what is new was sent
      by one of the calls, created runs are stored and appended in order, and an AlreadyExists
      answer tells of a name that is stored. */
  ghost predicate Recorded(l: Loop, before: Store, o: Outcome) {
    && o.l.runs == l.runs + CreatedRuns(o.calls)
    && (forall n :: n in before ==> n in o.sh.store && o.sh.store[n] == before[n])
    && (forall n :: n in o.sh.store && n !in before ==> exists c ::
        c in o.calls && c.run.name == n && c.run == o.sh.store[n] && !c.answer.AlreadyExists?)
    && (forall c :: c in o.calls && c.answer.Created? ==>
        c.run.name !in before && c.run.name in o.sh.store && o.sh.store[c.run.name] == c.run)
    && (forall c :: c in o.calls && c.answer.AlreadyExists? ==> c.run.name in o.sh.store)
  }

  lemma TurnRecords(w: World, cfg: Config, t: Target, l: Loop, sh: Shared, reply: Reply)
    requires l.i < |l.alerts|
    ensures Recorded(l, sh.store, Turn(w, cfg, t, l, sh, reply))
  {
    hide Gate, GroupOf, SettledBackoff, Sent;
    var o := Turn(w, cfg, t, l, sh, reply);
    if o.calls == [] {
      assert o.l.runs == l.runs + CreatedRuns(o.calls);
    } else {
      assert o.calls == [o.calls[0]] && CreatedRuns(o.calls[1..]) == [];
      assert o.calls[0] in o.calls;
    }
  }

  lemma RecordedTrans(l: Loop, before: Store, turn: Outcome, rest: Outcome)
    requires Recorded(l, before, turn) && Recorded(turn.l, turn.sh.store, rest)
    ensures Recorded(l, before, rest.(calls := turn.calls + rest.calls))
  {
    CreatedRunsConcat(turn.calls, rest.calls);
    hide CreatedRuns;
    var calls := turn.calls + rest.calls;
    forall n | n in rest.sh.store && n !in before
      ensures exists c :: c in calls && c.run.name == n && c.run == rest.sh.store[n] && !c.answer.AlreadyExists?
    {
      if n in turn.sh.store {
        var c :| c in turn.calls && c.run.name == n && c.run == turn.sh.store[n] && !c.answer.AlreadyExists?;
        assert c in calls;
      } else {
        var c :| c in rest.calls && c.run.name == n && c.run == rest.sh.store[n] && !c.answer.AlreadyExists?;
        assert c in calls;
      }
    }
  }

  /** The record holds for the loop as a whole. */
  lemma {:induction false} ScanRecords(w: World, cfg: Config, t: Target, l: Loop, sh: Shared, replies: seq<Reply>)
    requires |replies| >= |l.alerts| && l.i <= |l.alerts|
    ensures Recorded(l, sh.store, Scan(w, cfg, t, l, sh, replies))
    decreases |l.alerts| - l.i
  {
    if l.i < |l.alerts| {
      var turn := Turn(w, cfg, t, l, sh, replies[l.i]);
      TurnAdvances(w, cfg, t, l, sh, replies[l.i]);
      TurnRecords(w, cfg, t, l, sh, replies[l.i]);
      if turn.complete {
        ScanRecords(w, cfg, t, turn.l, turn.sh, replies);
        RecordedTrans(l, sh.store, turn, Scan(w, cfg, t, turn.l, turn.sh, replies));
      }
    }
  }

  // ---------------------------------------------------------------- the shape of a group's calls

  /** The group can make no further call in this task. */
  ghost predicate Blocked(w: World, t: Target, l: Loop, backoff: Table, fp: string) {
    HasActiveRun(fp, l.runs, w.phaseOf) || InBackoff(backoff, BackoffKey(t.name, fp), l.now)
  }

  lemma AppendedRunFound(fp: string, runs: seq<Run>, r: Run, phaseOf: PhaseOf)
    ensures HasActiveRun(fp, runs + [r], phaseOf) <==>
        HasActiveRun(fp, runs, phaseOf) || (Group(r) == fp && IsActive(r, phaseOf))
  {
    HasActiveRunIff(fp, runs, phaseOf);
    HasActiveRunIff(fp, runs + [r], phaseOf);
    assert forall x :: x in runs + [r] <==> x in runs || x == r;
  }

  /** Whatever settles, a group stays as blocked as it was. */
  lemma SettlingBlocks(w: World, t: Target, l: Loop, sent: Run, answer: Answer, backoff: Table, stamp: Time, fp: string)
    requires |fp| == |Group(sent)| && l.now <= stamp
    requires !InBackoff(backoff, BackoffKey(t.name, Group(sent)), l.now)
    requires IsActive(sent, w.phaseOf)
    ensures var key := BackoffKey(t.name, Group(sent));
            var after := SettledBackoff(backoff, key, l.now, SeenBefore(backoff, key), answer, stamp);
            Blocked(w, t, l, backoff, fp) || (fp == Group(sent) && !answer.AlreadyExists?)
            ==> Blocked(w, t, SettledLoop(l, sent, answer), after, fp)
  {
    AppendedRunFound(fp, l.runs, sent, w.phaseOf);
    BackoffKeyInjective(t.name, fp, t.name, Group(sent));
  }

  /** What the answer to a turn's call leaves of the group's backoff: nothing after an answer that
      is no error; after an error, unless the task is cut short, an entry of one minute, or of twice
      the old one up to ten minutes if that was at most twenty minutes old. */
  lemma TurnBackoff(w: World, cfg: Config, t: Target, l: Loop, sh: Shared, reply: Reply, c: Call)
    requires l.i < |l.alerts| && Turn(w, cfg, t, l, sh, reply).calls == [c]
    ensures var before, after, key := sh.backoff, Turn(w, cfg, t, l, sh, reply).sh.backoff, BackoffKey(t.name, c.group);
            && (forall k :: k != key ==> (k in after <==> k in before) && (k in after ==> after[k] == before[k]))
            && (!c.answer.Errored? ==> key !in after)
            && (c.answer.Errored? && reply.cancelledAfter ==> after == before)
            && (c.answer.Errored? && !reply.cancelledAfter ==>
                  && key in after && after[key].lastUpdate == reply.stamp
                  && after[key].delay ==
                     if key !in before || l.now - before[key].lastUpdate > 20 * 60_000_000_000 then 60_000_000_000
                     else if before[key].delay <= 300_000_000_000 then 2 * before[key].delay else 600_000_000_000)
  {
    hide Gate, GroupOf, ServeCreate, Sent;
  }

  /** Cancellation ends the task before the next alert, with nothing done, or after a failed call,
      with no backoff entered and nothing counted. */
  lemma TurnCancelled(w: World, cfg: Config, t: Target, l: Loop, sh: Shared, reply: Reply)
    requires l.i < |l.alerts|
    ensures var o := Turn(w, cfg, t, l, sh, reply);
            && (reply.cancelledBefore ==> o == Outcome(l, sh, [], false))
            && (!o.complete <==> reply.cancelledBefore ||
                                 (o.calls != [] && o.calls[0].answer.Errored? && reply.cancelledAfter))
            && (!o.complete ==> o.l == l && o.sh.backoff == sh.backoff)
  {
    hide Gate, GroupOf, ServeCreate, Sent, SettledBackoff;
  }

  /** How a turn without a call is counted: as a build error when every filter lets the alert
      pass and a part is missing, and otherwise as skipped. */
  lemma TurnTally(w: World, cfg: Config, t: Target, l: Loop, sh: Shared, reply: Reply)
    requires l.i < |l.alerts| && !reply.cancelledBefore
    ensures var a, o := l.alerts[l.i], Turn(w, cfg, t, l, sh, reply);
            var passes := Reaches(a, cfg, w.lower) && OldEnough(a, cfg, l.now) &&
                          GroupIsFree(l.runs, GroupOf(w, cfg, a), l.now, cfg.postRunDelay, w.phaseOf);
            var buildable := a.fingerprint.Some? && a.startsAt.Some? && w.renders(a);
            var waiting := InBackoff(sh.backoff, KeyOf(w, cfg, t, a), l.now);
            && (o.calls != [] <==> passes && buildable && !waiting)
            && (passes && !buildable ==>
                  o.l == l.(i := l.i + 1, tally := l.tally.(buildErrors := l.tally.buildErrors + 1)))
            && (!passes || (buildable && waiting) ==>
                  o.l == l.(i := l.i + 1, tally := l.tally.(skipped := l.tally.skipped + 1)))
  {
    VerdictIff(w, cfg, t, l.alerts[l.i], l.runs, l.now);
    hide Judge, GroupOf, InBackoff, Reaches, OldEnough, GroupIsFree, KeyOf, ServeCreate, Sent, SettledBackoff;
  }

  /** A call is only made for a group that is not blocked; a creation or an error blocks its
      group, and no turn unblocks any group. */
  lemma TurnBlocks(w: World, cfg: Config, t: Target, l: Loop, sh: Shared, reply: Reply, fp: string)
    requires w.Valid() && l.i < |l.alerts| && |fp| == 8 && l.now <= reply.stamp
    ensures var o := Turn(w, cfg, t, l, sh, reply);
            && (forall c :: c in o.calls ==> |c.group| == 8 && !Blocked(w, t, l, sh.backoff, c.group))
            && (o.complete && (Blocked(w, t, l, sh.backoff, fp) ||
                               exists c :: c in o.calls && c.group == fp && !c.answer.AlreadyExists?)
                ==> Blocked(w, t, o.l, o.sh.backoff, fp))
  {
    var g := Gate(w, cfg, t, l, sh.backoff);
    if !reply.cancelledBefore && g.Propose? {
      ProposalFacts(w, cfg, t, l.alerts[l.i], l.runs, l.now, reply.created);
      var sent := Sent(t, g.run, reply.created);
      var (store, answer) := ServeCreate(sh.store, sent, reply.fault);
      SettlingBlocks(w, t, l, sent, answer, sh.backoff, reply.stamp, fp);
    }
  }

  /** A blocked group stays blocked for the rest of the task, so no call is made for it. */
  lemma {:induction false} BlockedStaysQuiet(w: World, cfg: Config, t: Target, l: Loop, sh: Shared, replies: seq<Reply>,
                                             fp: string)
    requires w.Valid() && |replies| >= |l.alerts| && |fp| == 8
    requires forall k :: 0 <= k < |replies| ==> l.now <= replies[k].stamp
    requires Blocked(w, t, l, sh.backoff, fp)
    ensures forall c :: c in Scan(w, cfg, t, l, sh, replies).calls ==> c.group != fp
    decreases |l.alerts| - l.i
  {
    if l.i < |l.alerts| {
      var turn := Turn(w, cfg, t, l, sh, replies[l.i]);
      TurnAdvances(w, cfg, t, l, sh, replies[l.i]);
      TurnBlocks(w, cfg, t, l, sh, replies[l.i], fp);
      if turn.complete {
        BlockedStaysQuiet(w, cfg, t, turn.l, turn.sh, replies, fp);
      }
    }
  }

  /** Of the calls of one group, all but the last were answered AlreadyExists. */
  ghost predicate WellShaped(calls: seq<Call>) {
    forall i, j :: 0 <= i < j < |calls| && calls[i].group == calls[j].group ==> calls[i].answer.AlreadyExists?
  }

  lemma ShapeCons(c: Call, rest: seq<Call>)
    requires WellShaped(rest)
    requires forall j :: 0 <= j < |rest| && rest[j].group == c.group ==> c.answer.AlreadyExists?
    ensures WellShaped([c] + rest)
  {
    var all := [c] + rest;
    forall i, j | 0 <= i < j < |all| && all[i].group == all[j].group ensures all[i].answer.AlreadyExists? {
      assert all[j] == rest[j - 1];
      if i > 0 { assert all[i] == rest[i - 1]; }
    }
  }

  /** In one task a group's calls are answered AlreadyExists any number of times and then
      Created or with an error at most once: only the last call of a group can be one of these. */
  lemma {:induction false} CallShape(w: World, cfg: Config, t: Target, l: Loop, sh: Shared, replies: seq<Reply>)
    requires w.Valid() && |replies| >= |l.alerts|
    requires forall k :: 0 <= k < |replies| ==> l.now <= replies[k].stamp
    ensures WellShaped(Scan(w, cfg, t, l, sh, replies).calls)
    decreases |l.alerts| - l.i
  {
    hide Turn;
    if l.i < |l.alerts| {
      var turn := Turn(w, cfg, t, l, sh, replies[l.i]);
      TurnAdvances(w, cfg, t, l, sh, replies[l.i]);
      if turn.complete {
        CallShape(w, cfg, t, turn.l, turn.sh, replies);
        if turn.calls != [] {
          assert turn.calls == [turn.calls[0]];
          CallThenRest(w, cfg, t, l, sh, replies, turn.calls[0]);
          ShapeCons(turn.calls[0], Scan(w, cfg, t, turn.l, turn.sh, replies).calls);
        } else {
          assert turn.calls + Scan(w, cfg, t, turn.l, turn.sh, replies).calls ==
              Scan(w, cfg, t, turn.l, turn.sh, replies).calls;
        }
      }
    }
  }

  lemma CallThenRest(w: World, cfg: Config, t: Target, l: Loop, sh: Shared, replies: seq<Reply>, c: Call)
    requires w.Valid() && |replies| >= |l.alerts| && l.i < |l.alerts|
    requires forall k :: 0 <= k < |replies| ==> l.now <= replies[k].stamp
    requires Turn(w, cfg, t, l, sh, replies[l.i]).complete && Turn(w, cfg, t, l, sh, replies[l.i]).calls == [c]
    ensures var turn := Turn(w, cfg, t, l, sh, replies[l.i]);
            var rest := Scan(w, cfg, t, turn.l, turn.sh, replies).calls;
            forall j :: 0 <= j < |rest| && rest[j].group == c.group ==> c.answer.AlreadyExists?
  {
    var turn := Turn(w, cfg, t, l, sh, replies[l.i]);
    TurnAdvances(w, cfg, t, l, sh, replies[l.i]);
    assert c in turn.calls;
    TurnBlocks(w, cfg, t, l, sh, replies[l.i], GroupOf(w, cfg, l.alerts[l.i]));
    assert c.group == GroupOf(w, cfg, l.alerts[l.i]);
    var rest := Scan(w, cfg, t, turn.l, turn.sh, replies).calls;
    if !c.answer.AlreadyExists? {
      BlockedStaysQuiet(w, cfg, t, turn.l, turn.sh, replies, c.group);
    }
    assert forall j :: 0 <= j < |rest| ==> rest[j] in rest;
  }
}
