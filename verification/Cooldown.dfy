/** Cooldown over whole histories: the spacing of creations and how many fit a window; and the
    terminal runs the cooldown does not see. */
module Cooldown {
  import opened Text
  import opened Runs
  import opened Clients
  import opened Decisions
  import opened Tasks
  import opened Protocol
  import opened Concurrency
  import opened Dedup
  import opened Safety

  // ---------------------------------------------------------------- histories

  ghost predicate SameBirth(b: Run, r: Run) {
    r.labels == b.labels && r.created == b.created
  }

  ghost predicate Linked(s: State, b: Run) {
    exists r :: Known(s.sh.store, s.archive, r) && SameBirth(b, r)
  }

  /** No run of the scope and group was deleted while active or within its cooldown, and each
      terminal one carries the condition its terminal time is read from. */
  ghost predicate Tidy(sys: System, s: State, scope: string, fp: string) {
    && (forall r :: r in s.purged ==> !(InScope(scope, r) && Group(r) == fp))
    && (forall r :: Known(s.sh.store, s.archive, r) && Of(r, scope, fp) && !IsActive(r, sys.w.phaseOf) ==>
          TerminalTime(r, sys.w.phaseOf).Some?)
  }

  ghost predicate Of(b: Run, scope: string, fp: string) {
    InScope(scope, b) && Group(b) == fp
  }

  /** Creations of the scope and group are at least `d` apart. */
  ghost predicate Spaced(births: seq<Run>, scope: string, fp: string, d: Time) {
    forall i, j :: 0 <= i < j < |births| && Of(births[i], scope, fp) && Of(births[j], scope, fp)
                   ==> births[i].created + d <= births[j].created
  }

  ghost predicate History(sys: System, s: State, scope: string, fp: string) {
    Tidy(sys, s, scope, fp) ==>
      && (forall b :: b in s.births && Of(b, scope, fp) ==> Linked(s, b))
      && (sys.cfg.postRunDelay > 0 ==> Spaced(s.births, scope, fp, sys.cfg.postRunDelay))
  }

  /** A run is forgotten only by a deletion that is on record as early, and what it otherwise
      becomes is the same run further on. */
  lemma KnownForward(sys: System, s: State, a: Action, r: Run) returns (r': Run)
    requires Safe(sys, s) && Enabled(sys, s, a) && Known(s.sh.store, s.archive, r)
    requires r !in Apply(sys, s, a).purged
    ensures var after := Apply(sys, s, a);
            Known(after.sh.store, after.archive, r') && Evolved(sys.w, r, r')
  {
    r' := r;
    match a {
      case Operate(name, conditions) =>
        if r == s.sh.store[name] {
          r' := r.(conditions := conditions);
          OperatorEvolves(sys, s.clock, r, conditions);
        }
      case Work(k, inp) => WorkKeepsKnown(sys, s, k, inp, r);
      case _ => OthersKeepKnown(sys, s, a, r);
    }
  }

  /** Whatever appears in the store was created by the adapter and is on record as a birth, or is
      of another origin. */
  lemma CreationsRecorded(sys: System, s: State, a: Action, n: string)
    requires Enabled(sys, s, a) && n in Apply(sys, s, a).sh.store && n !in s.sh.store && !a.Appear?
    ensures var after := Apply(sys, s, a);
            exists t, b :: Creates(s, a, t, b) && after.sh.store[n] == b && after.births == s.births + [b]
  {
    assert a.Work?;
    var t, task := s.workers[a.k].t, s.workers[a.k].stage.task;
    assert task.Creating?;
    var b := Sent(t, task.run, a.inp.clock);
    assert Creates(s, a, t, b);
  }

  /** A deletion is on record as early exactly when the run was active or the condition that ended
      it had changed within the cooldown; otherwise the run is remembered. */
  lemma PurgedIff(sys: System, s: State, name: string)
    requires Enabled(sys, s, Delete(name))
    ensures var after, r := Apply(sys, s, Delete(name)), s.sh.store[name];
            var phase := sys.w.phaseOf(r.conditions);
            var early := phase !in {Completed, Failed, Denied, Escalated, EmergencyStopped} ||
                         exists k :: sys.cfg.postRunDelay > 0 && EndedBy(r.conditions, phase, k) &&
                                     s.clock - r.conditions[k].lastTransition < sys.cfg.postRunDelay;
            && name !in after.sh.store
            && (early ==> after.purged == s.purged + [r])
            && (!early ==> after.purged == s.purged && Known(after.sh.store, after.archive, r))
  {
    CooledMeans(sys, s.sh.store[name], s.clock);
    hide EndedBy;
  }

  lemma OthersKeepKnown(sys: System, s: State, a: Action, r: Run)
    requires Safe(sys, s) && Enabled(sys, s, a) && !a.Operate? && !a.Work? && Known(s.sh.store, s.archive, r)
    requires r !in Apply(sys, s, a).purged
    ensures Known(Apply(sys, s, a).sh.store, Apply(sys, s, a).archive, r)
  {
    hide Cooled, Disciplined, Separate, TasksSafe;
  }

  lemma WorkKeepsKnown(sys: System, s: State, k: nat, inp: Input, r: Run)
    requires Safe(sys, s) && Enabled(sys, s, Work(k, inp)) && Known(s.sh.store, s.archive, r)
    ensures var after := ApplyWork(sys, s, k, inp);
            Known(after.sh.store, after.archive, r)
  {
    var t, task := s.workers[k].t, s.workers[k].stage.task;
    StepStore(sys, s.sh, s.archive, s.clock, t, task, inp);
  }

  lemma PurgedGrows(sys: System, s: State, a: Action, r: Run)
    requires Enabled(sys, s, a) && r in s.purged
    ensures r in Apply(sys, s, a).purged
  {
    hide Cooled, AllowedChange, IsListing, Step, Born, Logged;
  }

  lemma TidyBefore(sys: System, s: State, a: Action, scope: string, fp: string)
    requires Safe(sys, s) && Enabled(sys, s, a) && Tidy(sys, Apply(sys, s, a), scope, fp)
    ensures Tidy(sys, s, scope, fp)
  {
    hide Apply, Enabled, Safe;
    forall r | r in s.purged ensures !Of(r, scope, fp) {
      PurgedGrows(sys, s, a, r);
    }
    forall r | Known(s.sh.store, s.archive, r) && Of(r, scope, fp) && !IsActive(r, sys.w.phaseOf)
      ensures TerminalTime(r, sys.w.phaseOf).Some?
    {
      var r' := KnownForward(sys, s, a, r);
      assert !IsActive(r', sys.w.phaseOf) && Of(r', scope, fp);
    }
  }

  lemma LinkedForward(sys: System, s: State, a: Action, b: Run, scope: string, fp: string)
    requires Safe(sys, s) && Enabled(sys, s, a) && Linked(s, b)
    requires Of(b, scope, fp) && Tidy(sys, Apply(sys, s, a), scope, fp)
    ensures Linked(Apply(sys, s, a), b)
  {
    hide Apply, Enabled, Safe;
    var r :| Known(s.sh.store, s.archive, r) && SameBirth(b, r);
    assert Of(r, scope, fp);
    var r' := KnownForward(sys, s, a, r);
    assert SameBirth(b, r');
  }

  /** Only a work step adds a birth, at most one, and the run it adds is stored. */
  lemma BirthsStep(sys: System, s: State, a: Action)
    requires Safe(sys, s) && Enabled(sys, s, a)
    ensures var after := Apply(sys, s, a);
            || after.births == s.births
            || exists t, b :: Creates(s, a, t, b) && after.births == s.births + [b] && Linked(after, b)
                              && b.created == s.clock && InScope(t.scope, b)
  {
    if a.Work? {
      var t, task := s.workers[a.k].t, s.workers[a.k].stage.task;
      var born := Born(t, task, s.sh.store, a.inp);
      StepStore(sys, s.sh, s.archive, s.clock, t, task, a.inp);
      var after := Apply(sys, s, a);
      if born == [] {
        assert after.births == s.births;
      } else {
        assert Known(after.sh.store, after.archive, born[0]) && SameBirth(born[0], born[0]);
        assert Creates(s, a, t, born[0]);
      }
    }
  }

  /** A creation comes at least postRunDelay after every earlier one of its scope and group. */
  lemma BirthSpaced(sys: System, s: State, a: Action, t: Target, b: Run, earlier: Run, scope: string, fp: string)
    requires Safe(sys, s) && Enabled(sys, s, a) && Creates(s, a, t, b) && b.created == s.clock && InScope(t.scope, b)
    requires sys.cfg.postRunDelay > 0 && Tidy(sys, s, scope, fp) && Linked(s, earlier)
    requires Of(earlier, scope, fp) && Of(b, scope, fp)
    ensures earlier.created + sys.cfg.postRunDelay <= b.created
  {
    ScopesDisjoint(scope, t.scope, b);
    var r :| Known(s.sh.store, s.archive, r) && SameBirth(earlier, r);
    assert Of(r, scope, fp);
    CreationIsCooled(sys, s, a, t, b, r);
  }

  lemma SpacedAppend(births: seq<Run>, b: Run, scope: string, fp: string, d: Time)
    requires Spaced(births, scope, fp, d)
    requires Of(b, scope, fp) ==> forall e :: e in births && Of(e, scope, fp) ==> e.created + d <= b.created
    ensures Spaced(births + [b], scope, fp, d)
  {
    var all := births + [b];
    forall i, j | 0 <= i < j < |all| && Of(all[i], scope, fp) && Of(all[j], scope, fp)
      ensures all[i].created + d <= all[j].created
    {
      assert all[i] == births[i] && births[i] in births;
      if j < |births| { assert all[j] == births[j]; }
    }
  }

  lemma HistoryStep(sys: System, s: State, a: Action, scope: string, fp: string)
    requires Safe(sys, s) && History(sys, s, scope, fp) && Enabled(sys, s, a)
    ensures History(sys, Apply(sys, s, a), scope, fp)
  {
    hide Apply, Enabled, Safe, Creates;
    var after, d := Apply(sys, s, a), sys.cfg.postRunDelay;
    if Tidy(sys, after, scope, fp) {
      TidyBefore(sys, s, a, scope, fp);
      BirthsStep(sys, s, a);
      forall b | b in s.births && Of(b, scope, fp) ensures Linked(after, b) {
        LinkedForward(sys, s, a, b, scope, fp);
      }
      if after.births != s.births {
        var t, b :| Creates(s, a, t, b) && after.births == s.births + [b] && Linked(after, b)
                    && b.created == s.clock && InScope(t.scope, b);
        if d > 0 {
          forall e | e in s.births && Of(e, scope, fp) && Of(b, scope, fp) ensures e.created + d <= b.created {
            BirthSpaced(sys, s, a, t, b, e, scope, fp);
          }
          SpacedAppend(s.births, b, scope, fp, d);
        }
      }
    }
  }

  /** In every reachable state the creations of a tidy scope and group are at least postRunDelay
      apart, those of runs deleted since included. */
  lemma {:induction false} AlwaysHistory(sys: System, states: seq<State>, actions: seq<Action>, i: nat, scope: string,
                                         fp: string)
    requires Behavior(sys, states, actions) && Separated(sys, states) && i < |states|
    ensures History(sys, states[i], scope, fp)
  {
    if i > 0 {
      AlwaysHistory(sys, states, actions, i - 1, scope, fp);
      AlwaysSafe(sys, states, actions, i - 1);
      HistoryStep(sys, states[i - 1], actions[i - 1], scope, fp);
    }
  }

  // ---------------------------------------------------------------- windows

  /** The creation times of one scope and group within [lo, hi], in order. */
  ghost function Times(births: seq<Run>, scope: string, fp: string, lo: Time, hi: Time): seq<Time> {
    if births == [] then []
    else
      var init, b := births[..|births| - 1], births[|births| - 1];
      Times(init, scope, fp, lo, hi) +
      if Of(b, scope, fp) && lo <= b.created <= hi then [b.created] else []
  }

  ghost predicate Apart(times: seq<Time>, d: Time) {
    forall i, j :: 0 <= i < j < |times| ==> times[i] + d <= times[j]
  }

  lemma {:induction false} TimesApart(births: seq<Run>, scope: string, fp: string, lo: Time, hi: Time, d: Time)
    requires Spaced(births, scope, fp, d)
    ensures var ts := Times(births, scope, fp, lo, hi);
            Apart(ts, d) && forall t :: t in ts ==> lo <= t <= hi && exists b ::
                b in births && Of(b, scope, fp) && b.created == t
    decreases |births|
  {
    if births != [] {
      var init, b := births[..|births| - 1], births[|births| - 1];
      assert Spaced(init, scope, fp, d);
      TimesApart(init, scope, fp, lo, hi, d);
      var before := Times(init, scope, fp, lo, hi);
      forall i | 0 <= i < |before| ensures Of(b, scope, fp) ==> before[i] + d <= b.created {
        assert before[i] in before;
        var e :| e in init && Of(e, scope, fp) && e.created == before[i];
        var j :| 0 <= j < |init| && init[j] == e;
        assert births[j] == e;
      }
    }
  }

  lemma {:induction false} ApartSpan(times: seq<Time>, d: Time)
    requires Apart(times, d) && |times| > 0 && d > 0
    ensures times[0] + (|times| - 1) * d <= times[|times| - 1]
    decreases |times|
  {
    if |times| > 1 {
      var init := times[..|times| - 1];
      ApartSpan(init, d);
      assert (|times| - 1) * d == (|init| - 1) * d + d;
      assert init[|init| - 1] == times[|times| - 2];
    }
  }

  lemma QuotientBound(n: nat, d: Time, width: Time)
    requires d > 0 && n * d <= width
    ensures n <= width / d
  {
    var q := width / d;
    assert width == d * q + width % d;
    assert d * (n - q) <= width % d;
    MulAtLeast(d, n - q);
  }

  /** The positions of those creations in the record of births. */
  ghost function Within(births: seq<Run>, scope: string, fp: string, lo: Time, hi: Time): set<int> {
    set i | 0 <= i < |births| && InScope(scope, births[i]) && Group(births[i]) == fp && lo <= births[i].created <= hi
  }

  lemma {:induction false} TimesCount(births: seq<Run>, scope: string, fp: string, lo: Time, hi: Time)
    ensures |Times(births, scope, fp, lo, hi)| == |Within(births, scope, fp, lo, hi)|
    decreases |births|
  {
    if births == [] {
      assert Within(births, scope, fp, lo, hi) == {};
    } else {
      var n := |births| - 1;
      TimesCount(births[..n], scope, fp, lo, hi);
      assert Within(births, scope, fp, lo, hi) ==
             Within(births[..n], scope, fp, lo, hi) +
             if Of(births[n], scope, fp) && lo <= births[n].created <= hi then {n} else {};
    }
  }

  /** At most floor(W / postRunDelay) + 1 creations of a scope and group fall into any window of
      length W, over whole histories, as long as the group is tidy. */
  lemma CreationsPerWindow(sys: System, states: seq<State>, actions: seq<Action>, i: nat, scope: string, fp: string,
                           lo: Time, width: Time)
    requires Behavior(sys, states, actions) && Separated(sys, states) && i < |states|
    requires sys.cfg.postRunDelay > 0 && Tidy(sys, states[i], scope, fp) && width >= 0
    ensures |Within(states[i].births, scope, fp, lo, lo + width)| <= width / sys.cfg.postRunDelay + 1
  {
    hide Behavior, Separated, Tidy, Linked, Spaced, Of, Times, Within;
    TimesCount(states[i].births, scope, fp, lo, lo + width);
    var d := sys.cfg.postRunDelay;
    AlwaysHistory(sys, states, actions, i, scope, fp);
    var ts := Times(states[i].births, scope, fp, lo, lo + width);
    TimesApart(states[i].births, scope, fp, lo, lo + width, d);
    if |ts| > 0 {
      ApartSpan(ts, d);
      assert ts[0] in ts && ts[|ts| - 1] in ts;
      QuotientBound(|ts| - 1, d, width);
    } else {
      assert 0 <= width / d;
    }
  }

  // ---------------------------------------------------------------- what the cooldown does not see

  lemma {:induction false} FirstTransitionSome(conditions: seq<Condition>, ctype: string)
    ensures FirstTransition(conditions, ctype).Some? <==> exists c :: c in conditions && c.ctype == ctype
  {
    if conditions != [] {
      FirstTransitionSome(conditions[1..], ctype);
      assert forall c :: c in conditions <==> c == conditions[0] || c in conditions[1..];
    }
  }

  /** Exactly which terminal runs have a terminal time, and so a cooldown: those with the
      condition their phase is looked up under.  A Completed run needs Verified. */
  lemma CooldownSees(r: Run, phaseOf: PhaseOf)
    ensures TerminalTime(r, phaseOf).Some? <==>
            match phaseOf(r.conditions)
            case Completed => exists c :: c in r.conditions && c.ctype == "Verified"
            case Failed => exists k :: FirstFalse(r.conditions, k) && r.conditions[k].ctype != ""
            case Denied => exists c :: c in r.conditions && c.ctype == "Denied"
            case Escalated => exists c :: c in r.conditions && c.ctype == "Escalated"
            case EmergencyStopped => exists c :: c in r.conditions && c.ctype == "EmergencyStopped"
            case Ongoing(_) => false
  {
    var ctype := TerminalConditionType(r, phaseOf);
    FirstTransitionSome(r.conditions, ctype);
    var k := FailedTypeIs(r.conditions);
    assert forall i :: FirstFalse(r.conditions, i) ==> i == k;
    assert k < |r.conditions| ==> r.conditions[k] in r.conditions;
  }

  /** The documented gap on one input: a run completed by analysis alone, this very moment,
      holds back nothing, whatever the cooldown. */
  lemma AnalysisOnlyGap(phaseOf: PhaseOf, fp: string, now: Time, window: Time)
    requires phaseOf([Condition("Analyzed", True, now)]) == Completed
    ensures var r := Run("run", map[LABEL_DEDUP_FINGERPRINT := fp], [Condition("Analyzed", True, now)], now);
            && !IsActive(r, phaseOf) && Group(r) == fp
            && !HasActiveRun(fp, [r], phaseOf) && !TooRecent(fp, [r], now, window, phaseOf)
  {
    var r := Run("run", map[LABEL_DEDUP_FINGERPRINT := fp], [Condition("Analyzed", True, now)], now);
    assert "Analyzed"[0] != CONDITION_VERIFIED[0];
    assert TerminalTime(r, phaseOf) == FirstTransition(r.conditions, CONDITION_VERIFIED) ==
        FirstTransition([], CONDITION_VERIFIED);
    HasActiveRunIff(fp, [r], phaseOf);
    TooRecentIff(fp, [r], now, window, phaseOf);
  }
}
