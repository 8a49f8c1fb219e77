/** A task running with fixed answers from the world: its steps add up to the recursive loop. */
module Solo {
  import opened Text
  import opened Runs
  import opened Backoffs
  import opened Clients
  import opened Decisions
  import opened Tasks

  /** Everything the world answers to one task. */
  datatype Script = Script(alerts: Option<seq<Alert>>, listed: Option<seq<Run>>, now: Time, replies: seq<Reply>) {
    predicate Complete() {
      alerts.Some? ==> |alerts.value| <= |replies|
    }
  }

  function Ask(s: Script, clock: Time, cancelled: bool, fault: Fault): Input {
    Input(s.alerts, s.listed, clock, cancelled, fault)
  }

  /** The answer the script holds for the task's next step. */
  function InputFor(s: Script, task: Task): Input {
    match task
    case Scanning(l) =>
      if l.i < |s.replies| then Ask(s, s.now, s.replies[l.i].cancelledBefore, NoFault)
      else Ask(s, s.now, false, NoFault)
    case Creating(l, _, _) =>
      if l.i < |s.replies| then Ask(s, s.replies[l.i].created, false, s.replies[l.i].fault)
      else Ask(s, s.now, false, NoFault)
    case Settling(l, _, _, _) =>
      if l.i < |s.replies| then Ask(s, s.replies[l.i].stamp, s.replies[l.i].cancelledAfter, NoFault)
      else Ask(s, s.now, false, NoFault)
    case _ => Ask(s, s.now, false, NoFault)
  }

  ghost function Move(w: World, cfg: Config, t: Target, s: Script, task: Task, sh: Shared): (Task, Shared) {
    Step(w, cfg, t, task, sh, InputFor(s, task))
  }

  ghost function Moves(w: World, cfg: Config, t: Target, s: Script, task: Task, sh: Shared, n: nat): (Task, Shared)
    decreases n
  {
    if n == 0 then (task, sh)
    else
      var (next, after) := Move(w, cfg, t, s, task, sh);
      Moves(w, cfg, t, s, next, after, n - 1)
  }

  /** The whole task as one function of the shared state. */
  ghost function Whole(w: World, cfg: Config, t: Target, s: Script, sh: Shared): (Task, Shared)
    requires s.Complete()
  {
    if s.alerts.None? || s.listed.None? then (Finished(None), sh)
    else
      var o := Scan(w, cfg, t, Start(s.alerts.value, s.listed.value, s.now), sh, s.replies);
      (Finished(Some(o.l)), o.sh)
  }

  lemma {:induction false} MovesAdd(w: World, cfg: Config, t: Target, s: Script, task: Task, sh: Shared, m: nat, n: nat)
    ensures var (mid, after) := Moves(w, cfg, t, s, task, sh, m);
            Moves(w, cfg, t, s, task, sh, m + n) == Moves(w, cfg, t, s, mid, after, n)
    decreases m
  {
    if m > 0 {
      var (next, after) := Move(w, cfg, t, s, task, sh);
      MovesAdd(w, cfg, t, s, next, after, m - 1, n);
    }
  }

  lemma {:induction false} FinishedStays(w: World, cfg: Config, t: Target, s: Script, task: Task, sh: Shared, n: nat)
    requires task.Finished?
    ensures Moves(w, cfg, t, s, task, sh, n) == (task, sh)
    decreases n
  {
    if n > 0 { FinishedStays(w, cfg, t, s, task, sh, n - 1); }
  }

  /** One turn of the loop is one step, or three when a create call is made. */
  lemma TurnIsMoves(w: World, cfg: Config, t: Target, s: Script, l: Loop, sh: Shared) returns (n: nat)
    requires l.i < |l.alerts| <= |s.replies|
    ensures var o := Turn(w, cfg, t, l, sh, s.replies[l.i]);
            Moves(w, cfg, t, s, Scanning(l), sh, n) == (if o.complete then Scanning(o.l) else Finished(Some(l)), o.sh)
  {
    var reply := s.replies[l.i];
    if reply.cancelledBefore || !Gate(w, cfg, t, l, sh.backoff).Propose? {
      OneMove(w, cfg, t, s, Scanning(l), sh);
      n := 1;
    } else {
      AttemptIsMoves(w, cfg, t, s, l, sh);
      n := 3;
    }
  }

  lemma OneMove(w: World, cfg: Config, t: Target, s: Script, task: Task, sh: Shared)
    ensures Moves(w, cfg, t, s, task, sh, 1) == Move(w, cfg, t, s, task, sh)
  {
    var (next, after) := Move(w, cfg, t, s, task, sh);
    assert Moves(w, cfg, t, s, next, after, 0) == (next, after);
  }

  lemma ThreeMoves(w: World, cfg: Config, t: Target, s: Script, t0: Task, s0: Shared, t1: Task, s1: Shared, t2: Task,
                   s2: Shared)
    requires Move(w, cfg, t, s, t0, s0) == (t1, s1)
    requires Move(w, cfg, t, s, t1, s1) == (t2, s2)
    ensures Moves(w, cfg, t, s, t0, s0, 3) == Move(w, cfg, t, s, t2, s2)
  {
    OneMove(w, cfg, t, s, t2, s2);
    assert Moves(w, cfg, t, s, t1, s1, 2) == Moves(w, cfg, t, s, t2, s2, 1);
  }

  lemma AttemptIsMoves(w: World, cfg: Config, t: Target, s: Script, l: Loop, sh: Shared)
    requires l.i < |l.alerts| <= |s.replies|
    requires !s.replies[l.i].cancelledBefore && Gate(w, cfg, t, l, sh.backoff).Propose?
    ensures var o := Turn(w, cfg, t, l, sh, s.replies[l.i]);
            Moves(w, cfg, t, s, Scanning(l), sh, 3) == (if o.complete then Scanning(o.l) else Finished(Some(l)), o.sh)
  {
    hide Gate, Decisions.GroupOf, Decisions.Judge, ServeCreate, SettledBackoff, SettledLoop, Sent;
    var reply := s.replies[l.i];
    var p := Gate(w, cfg, t, l, sh.backoff).run;
    var a := l.alerts[l.i];
    var seen := SeenBefore(sh.backoff, KeyOf(w, cfg, t, a));
    var sent := Sent(t, p, reply.created);
    var (store, answer) := ServeCreate(sh.store, sent, reply.fault);
    assert Group(sent) == GroupOf(w, cfg, a) by { GateKey(w, cfg, t, l, sh.backoff, reply.created); }
    var mid := sh.(store := store);
    assert Move(w, cfg, t, s, Scanning(l), sh) == (Creating(l, p, seen), sh);
    assert Move(w, cfg, t, s, Creating(l, p, seen), sh) == (Settling(l, sent, seen, answer), mid);
    ThreeMoves(w, cfg, t, s, Scanning(l), sh, Creating(l, p, seen), sh, Settling(l, sent, seen, answer), mid);
  }

  lemma GateKey(w: World, cfg: Config, t: Target, l: Loop, backoff: Table, clock: Time)
    requires l.i < |l.alerts| && Gate(w, cfg, t, l, backoff).Propose?
    ensures Group(Sent(t, Gate(w, cfg, t, l, backoff).run, clock)) == GroupOf(w, cfg, l.alerts[l.i])
  {
    ProposalKey(w, cfg, t, l.alerts[l.i], l.runs, l.now, clock);
  }

  /** The key the settling step recomputes from the run is the alert's. */
  lemma ProposalKey(w: World, cfg: Config, t: Target, a: Alert, runs: seq<Run>, now: Time, clock: Time)
    requires Judge(w, cfg, t, a, runs, now).Propose?
    ensures Group(Sent(t, Judge(w, cfg, t, a, runs, now).run, clock)) == GroupOf(w, cfg, a)
    ensures Sent(t, Judge(w, cfg, t, a, runs, now).run, clock).conditions == []
  {
    BuiltFacts(w, a, GroupOf(w, cfg, a), t.id);
    ScopedFacts(t.scope, Judge(w, cfg, t, a, runs, now).run);
  }

  lemma EndMove(w: World, cfg: Config, t: Target, s: Script, l: Loop, sh: Shared)
    requires l.i == |l.alerts|
    ensures Move(w, cfg, t, s, Scanning(l), sh) == (Finished(Some(l)), sh)
  {
  }

  lemma {:induction false} ScanIsMoves(w: World, cfg: Config, t: Target, s: Script, l: Loop, sh: Shared)
    returns (n: nat)
    requires l.i <= |l.alerts| <= |s.replies|
    ensures var o := Scan(w, cfg, t, l, sh, s.replies);
            Moves(w, cfg, t, s, Scanning(l), sh, n) == (Finished(Some(o.l)), o.sh)
    decreases |l.alerts| - l.i
  {
    hide Turn, Moves, Move;
    if l.i == |l.alerts| {
      OneMove(w, cfg, t, s, Scanning(l), sh);
      EndMove(w, cfg, t, s, l, sh);
      n := 1;
    } else {
      var turn := Turn(w, cfg, t, l, sh, s.replies[l.i]);
      TurnAdvances(w, cfg, t, l, sh, s.replies[l.i]);
      var m := TurnIsMoves(w, cfg, t, s, l, sh);
      if turn.complete {
        var k := ScanIsMoves(w, cfg, t, s, turn.l, turn.sh);
        MovesAdd(w, cfg, t, s, Scanning(l), sh, m, k);
        n := m + k;
      } else {
        n := m;
      }
    }
  }

  /** Running the steps to the end is running the recursive loop. */
  lemma WholeIsMoves(w: World, cfg: Config, t: Target, s: Script, sh: Shared) returns (n: nat)
    requires s.Complete()
    ensures Moves(w, cfg, t, s, Fetching, sh, n) == Whole(w, cfg, t, s, sh)
  {
    OneMove(w, cfg, t, s, Fetching, sh);
    if s.alerts.None? {
      n := 1;
    } else {
      var alerts := s.alerts.value;
      OneMove(w, cfg, t, s, Listing(alerts), sh);
      MovesAdd(w, cfg, t, s, Fetching, sh, 1, 1);
      if s.listed.None? {
        n := 2;
      } else {
        var l := Start(alerts, s.listed.value, s.now);
        var m := ScanIsMoves(w, cfg, t, s, l, sh);
        ThreeMoves(w, cfg, t, s, Fetching, sh, Listing(alerts), sh, Stamping(alerts, s.listed.value), sh);
        MovesAdd(w, cfg, t, s, Fetching, sh, 3, m);
        n := 3 + m;
      }
    }
  }
}
