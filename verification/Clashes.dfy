/** An input on which the run names of two targets meet and interleavings end differently:
    retry names of full-length base names. */
module Clashes {
  import opened Text
  import opened Names
  import opened Runs
  import opened Backoffs
  import opened Clients
  import opened Decisions
  import opened Tasks
  import opened Solo
  import opened Interleaving
  import opened Listings
  import opened Examples
  import opened Targets

  /** A job with one alert, a list answer, and a create call that goes well. */
  ghost predicate Lone(j: Job, x: Alert, xs: seq<Run>) {
    && j.s.alerts == Some([x]) && j.s.listed == Some(xs) && |j.s.replies| == 1
    && !j.s.replies[0].cancelledBefore && !j.s.replies[0].cancelledAfter && j.s.replies[0].fault.NoFault?
  }

  /** The job will ask for this run. */
  ghost predicate WillSend(w: World, cfg: Config, j: Job, x: Alert, xs: seq<Run>, backoff: Table, sent: Run) {
    && Lone(j, x, xs)
    && !InBackoff(backoff, KeyOf(w, cfg, j.t, x), j.s.now)
    && var v := Judge(w, cfg, j.t, x, xs, j.s.now);
       v.Propose? && sent == Sent(j.t, v.run, j.s.replies[0].created)
  }

  /** Such a job sends its one request. */
  lemma LoneWhole(w: World, cfg: Config, j: Job, x: Alert, xs: seq<Run>, sh: Shared, sent: Run)
    requires WillSend(w, cfg, j, x, xs, sh.backoff, sent)
    ensures j.s.Complete()
    ensures Whole(w, cfg, j.t, j.s, sh).1.store == ServeCreate(sh.store, sent, NoFault).0
  {
    var l, reply := Start([x], xs, j.s.now), j.s.replies[0];
    var turn := Turn(w, cfg, j.t, l, sh, reply);
    assert Gate(w, cfg, j.t, l, sh.backoff).Propose?;
    assert turn == Attempt(w, cfg, j.t, l, Gate(w, cfg, j.t, l, sh.backoff).run, sh, reply);
    hide Judge, GroupOf, Sent;
    assert turn.complete && turn.l.i == 1;
    assert Scan(w, cfg, j.t, turn.l, turn.sh, j.s.replies).sh == turn.sh;
  }

  /** What such a job adds is its one run, if the name is free. */
  lemma LoneAdds(w: World, cfg: Config, j: Job, x: Alert, xs: seq<Run>, sh: Shared, sent: Run)
    requires WillSend(w, cfg, j, x, xs, sh.backoff, sent)
    ensures j.s.Complete() && Added(w, cfg, j, sh) == {sent.name} - sh.store.Keys
  {
    LoneWhole(w, cfg, j, x, xs, sh, sent);
    hide Whole, WillSend;
  }

  // ---------------------------------------------------------------- such an input

  function LongName(): string {
    seq(54, _ => 'a')
  }

  function Occurrence(startsAt: Time): Alert {
    Alert(Some("0"), Some(startsAt), map["alertname" := LongName()], [Some("r")])
  }

  function Permissive(): Config {
    Config(0, 0, ["r"], [])
  }

  function HashAt(t: Target, startsAt: Time): string {
    OccurrenceHash(StartText(startsAt), t.id, FirstCharSha)
  }

  function BaseAt(t: Target, startsAt: Time): string {
    LongName() + "-" + HashAt(t, startsAt)
  }

  lemma BaseAtIsBase(t: Target, startsAt: Time)
    ensures BaseName(ExampleWorld(), Occurrence(startsAt), startsAt, t.id) == BaseAt(t, startsAt)
    ensures |BaseAt(t, startsAt)| == MAX_LABEL_VALUE_LEN && EndsWith(BaseAt(t, startsAt), "-" + HashAt(t, startsAt))
  {
    assert IsDns(LongName());
    assert DnsClean(LongName()) == LongName();
    assert Lookup(Occurrence(startsAt).labels, "alertname") == LongName() &&
        Lookup(Occurrence(startsAt).labels, "namespace") == "";
  }

  /** The run of the occurrence, stopped by the operator. */
  ghost function Stopped(t: Target, startsAt: Time): Run {
    var fp := GroupOf(ExampleWorld(), Permissive(), Occurrence(startsAt));
    Scoped(t.scope, BuildWith(ExampleWorld(), Occurrence(startsAt), fp, t.id).value)
      .(conditions := [Condition(CONDITION_EMERGENCY_STOPPED, True, 0)])
  }

  ghost function ExampleJob(t: Target, startsAt: Time): Job {
    Job(t, Script(Some([Occurrence(startsAt)]), Some([Stopped(t, startsAt)]), 0, [Reply(false, 0, NoFault, false, 0)]))
  }

  lemma StoppedFacts(t: Target, startsAt: Time)
    ensures var r := Stopped(t, startsAt);
            && r.name == BaseAt(t, startsAt) && InScope(t.scope, r)
            && Group(r) == GroupOf(ExampleWorld(), Permissive(), Occurrence(startsAt))
            && ExampleWorld().phaseOf(r.conditions) == EmergencyStopped
  {
    var w, a := ExampleWorld(), Occurrence(startsAt);
    var fp := GroupOf(w, Permissive(), a);
    BaseAtIsBase(t, startsAt);
    BuiltFacts(w, a, fp, t.id);
    ScopedFacts(t.scope, BuildWith(w, a, fp, t.id).value);
  }

  /** A one-digit number is no hash, so no base name is a first retry name. */
  lemma FirstRetryIsNoBase(t: Target, startsAt: Time, base: string)
    ensures BaseAt(t, startsAt) != Candidate(base, 1)
  {
    BaseAtIsBase(t, startsAt);
    BaseIsRetryIff(BaseAt(t, startsAt), HashAt(t, startsAt), base, 1);
  }

  lemma FirstRetryName(base: string)
    requires Candidate(base, 1) != base
    ensures NextName(base, {base}) == Candidate(base, 1)
  {
    hide Candidate;
    assert FirstFree(base, {base}, 1) == 1;
  }

  /** A stopped run alone in the list lets its group fire again, under the next name. */
  lemma StoppedRetries(w: World, cfg: Config, t: Target, a: Alert, r: Run, now: Time)
    requires cfg.preRunDelay == 0 && cfg.postRunDelay == 0
    requires Reaches(a, cfg, w.lower) && a.fingerprint.Some? && a.startsAt.Some? && w.renders(a)
    requires r.name == BaseName(w, a, a.startsAt.value, t.id) && Group(r) == GroupOf(w, cfg, a)
    requires w.phaseOf(r.conditions) == EmergencyStopped
    ensures var v := Judge(w, cfg, t, a, [r], now); v.Propose? && v.run.name == NextName(r.name, {r.name})
  {
    hide GroupOf, BaseName, NextName, BuildLabels;
    VerdictIff(w, cfg, t, a, [r], now);
    assert HasEmergencyStoppedNameConflict(r.name, Group(r), [r], w.phaseOf);
    assert RunNames([r]) == {r.name};
  }

  lemma RetryIsProposed(t: Target, startsAt: Time)
    ensures var v := Judge(ExampleWorld(), Permissive(), t, Occurrence(startsAt), [Stopped(t, startsAt)], 0);
            v.Propose? && v.run.name == Candidate(BaseAt(t, startsAt), 1)
  {
    var w, cfg, a, r := ExampleWorld(), Permissive(), Occurrence(startsAt), Stopped(t, startsAt);
    assert w.lower("r") in cfg.allowedReceivers && Some("r") in a.receivers;
    assert w.renders(a);
    hide Stopped, GroupOf, BaseName, BaseAt, Candidate, NextName, Judge, ExampleWorld;
    StoppedFacts(t, startsAt);
    BaseAtIsBase(t, startsAt);
    FirstRetryIsNoBase(t, startsAt, BaseAt(t, startsAt));
    FirstRetryName(BaseAt(t, startsAt));
    StoppedRetries(w, cfg, t, a, r, 0);
  }

  /** The stopped run makes the task ask for the first retry name. */
  lemma AsksForRetry(t: Target, startsAt: Time) returns (sent: Run)
    ensures var j := ExampleJob(t, startsAt);
            WillSend(ExampleWorld(), Permissive(), j, Occurrence(startsAt), [Stopped(t, startsAt)], map[], sent)
    ensures sent.name == Candidate(BaseAt(t, startsAt), 1)
  {
    RetryIsProposed(t, startsAt);
    hide Judge, Stopped, BaseAt, Candidate, ExampleWorld, Occurrence, KeyOf;
    sent := Sent(t, Judge(ExampleWorld(), Permissive(), t, Occurrence(startsAt), [Stopped(t, startsAt)], 0).run, 0);
  }

  /** A spoke target as it is built for a SpokeCluster. */
  function Spoke(name: string): Target {
    Target(name, SpokeTargetID(name, FirstCharSha), SpokeTargetID(name, FirstCharSha))
  }

  /** Two spokes of a registry, each with a stopped run of a full-length name: both tasks ask for
      the same retry name, so the condition of Interleaving.ConfluenceIff fails, and two complete
      schedules with true list answers end in different stores. */
  lemma RetryNamesSplit() returns (jobs: seq<Job>, sh: Shared, s1: seq<nat>, s2: seq<nat>)
    ensures |jobs| == 2 && DistinctNames(jobs) && DistinctScopes(jobs) && AllComplete(jobs) && WellKeyed(sh.store)
    ensures FromHub([jobs[0].t, jobs[1].t], [], map["a" := jobs[0].t, "b" := jobs[1].t], FirstCharSha)
    ensures var w, cfg := ExampleWorld(), Permissive();
            && !Apart(w, cfg, jobs, sh)
            && Legal(jobs, s1) && Legal(jobs, s2)
            && AllDone(Play(w, cfg, jobs, sh, s1)) && AllDone(Play(w, cfg, jobs, sh, s2))
            && TrueAnswers(w, cfg, jobs, sh, s1) && TrueAnswers(w, cfg, jobs, sh, s2)
            && Play(w, cfg, jobs, sh, s1).sh.store != Play(w, cfg, jobs, sh, s2).sh.store
  {
    hide *;
    var w, cfg := ExampleWorld(), Permissive();
    var t, u := Spoke("a"), Spoke("b");
    ExampleSpokes();
    var ra, rb, a, b := Stopped(t, 0), Stopped(u, 1), ExampleJob(t, 0), ExampleJob(u, 1);
    ExampleTargets(t, u);
    sh := Shared(map[ra.name := ra, rb.name := rb], map[]);
    ExampleListed(sh.store, t, u);
    var p := AsksForRetry(t, 0);
    var q := AsksForRetry(u, 1);
    SameFirstRetry(t, u);
    StoppedFacts(t, 0);
    StoppedFacts(u, 1);
    FirstRetryIsNoBase(t, 0, BaseAt(t, 0));
    FirstRetryIsNoBase(u, 1, BaseAt(t, 0));
    LoneAdds(w, cfg, a, Occurrence(0), [ra], sh, p);
    LoneAdds(w, cfg, b, Occurrence(1), [rb], sh, q);
    jobs := [a, b];
    BothComplete(a, b);
    MeetingNotApart(w, cfg, jobs, sh, p.name);
    s1, s2 := NotApartSplits(w, cfg, jobs, sh);
    TrueAnswersIff(w, cfg, jobs, sh, s1);
    TrueAnswersIff(w, cfg, jobs, sh, s2);
  }

  lemma BothComplete(a: Job, b: Job)
    requires a.s.Complete() && b.s.Complete()
    ensures AllComplete([a, b])
  {
  }

  lemma MeetingNotApart(w: World, cfg: Config, jobs: seq<Job>, sh: Shared, name: string)
    requires |jobs| == 2 && AllComplete(jobs)
    requires name in Added(w, cfg, jobs[0], sh) && name in Added(w, cfg, jobs[1], sh)
    ensures !Apart(w, cfg, jobs, sh)
  {
    hide Added;
    assert !(Added(w, cfg, jobs[0], sh) !! Added(w, cfg, jobs[1], sh));
  }

  lemma ExampleTargets(t: Target, u: Target)
    requires t.scope != u.scope && t.name != u.name
    ensures ExampleJob(t, 0).t == t && ExampleJob(u, 1).t == u
    ensures DistinctNames([ExampleJob(t, 0), ExampleJob(u, 1)]) && DistinctScopes([ExampleJob(t, 0), ExampleJob(u, 1)])
  {
    hide Stopped, Occurrence;
  }

  /** The two spokes are what a registry without a hub target delivers. */
  lemma ExampleSpokes()
    ensures var t, u := Spoke("a"), Spoke("b");
            && t.name == "a" && u.name == "b" && t.scope != u.scope
            && FromHub([t, u], [], map["a" := t, "b" := u], FirstCharSha)
  {
    var t, u := Spoke("a"), Spoke("b");
    SpokeIdsClash("a", "b", FirstCharSha);
    hide SpokeTargetID;
    assert [t, u][0..] == [t, u];
  }

  lemma SameFirstRetry(t: Target, u: Target)
    ensures Candidate(BaseAt(t, 0), 1) == Candidate(BaseAt(u, 1), 1)
    ensures BaseAt(t, 0) != BaseAt(u, 1)
  {
    TruncatedRetriesClash(LongName() + "-", HashAt(t, 0), HashAt(u, 1), 1);
    ExampleHash(0, t.id);
    ExampleHash(1, u.id);
    assert BaseAt(t, 0)[55] == 'a' && BaseAt(u, 1)[55] == 'b';
  }

  lemma ExampleListed(store: Store, t: Target, u: Target)
    requires t.scope != u.scope
    requires var ra, rb := Stopped(t, 0), Stopped(u, 1); store == map[ra.name := ra, rb.name := rb]
    ensures WellKeyed(store) && ListedAtStart([ExampleJob(t, 0), ExampleJob(u, 1)], store)
  {
    StoppedFacts(t, 0);
    StoppedFacts(u, 1);
    SameFirstRetry(t, u);
    hide Stopped, BaseAt, InScope;
    OneEach(store, t.scope, Stopped(t, 0), u.scope, Stopped(u, 1));
  }

  /** In a store of two runs of different scopes each scope lists its own. */
  lemma OneEach(store: Store, s1: string, r1: Run, s2: string, r2: Run)
    requires s1 != s2 && InScope(s1, r1) && InScope(s2, r2) && r1.name != r2.name
    requires store == map[r1.name := r1, r2.name := r2]
    ensures WellKeyed(store) && IsListing(store, s1, [r1]) && IsListing(store, s2, [r2])
  {
    if InScope(s2, r1) { ScopesDisjoint(s1, s2, r1); }
    if InScope(s1, r2) { ScopesDisjoint(s1, s2, r2); }
    hide InScope;
  }
}
