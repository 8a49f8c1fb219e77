/** One poll cycle with the targets in turn, and exactly when every concurrent cycle with the same
    answers ends the same way. */
module Cycle {
  import opened Text
  import opened Runs
  import opened Backoffs
  import opened Clients
  import opened Decisions
  import opened Tasks
  import opened Solo
  import opened Interleaving
  import opened Listings
  import opened AdapterLoop

  /** What the world answers while one target is reconciled. */
  datatype Answers = Answers(alerts: Option<seq<Alert>>, listable: bool, now: Time, replies: seq<Reply>)

  ghost predicate Usable(x: Answers) {
    x.alerts.Some? ==> |x.alerts.value| <= |x.replies| && forall i :: 0 <= i < |x.alerts.value| ==>
        Measurable(x.alerts.value[i])
  }

  /** The job is that target's task with those answers. */
  ghost predicate Ran(job: Job, t: Target, x: Answers) {
    job.t == t && job.s.alerts == x.alerts && job.s.now == x.now && job.s.replies == x.replies && job.s.Complete()
  }

  ghost function JobOf(t: Target, x: Answers, listed: seq<Run>): Job {
    Job(t, Script(x.alerts, if x.listable then Some(listed) else None, x.now, x.replies))
  }

  lemma {:induction false} SequentialPrefix(w: World, cfg: Config, jobs: seq<Job>, more: seq<Job>, sh: Shared, n: nat)
    requires n <= |jobs| && AllComplete(jobs + more) && AllComplete(jobs)
    ensures Sequential(w, cfg, jobs + more, sh, n) == Sequential(w, cfg, jobs, sh, n)
    decreases n
  {
    if n > 0 {
      SequentialPrefix(w, cfg, jobs, more, sh, n - 1);
      assert (jobs + more)[n - 1] == jobs[n - 1];
    }
  }

  lemma ScanKeepsKeys(w: World, cfg: Config, t: Target, l: Loop, sh: Shared, replies: seq<Reply>)
    requires |replies| >= |l.alerts| && l.i <= |l.alerts| && WellKeyed(sh.store)
    ensures WellKeyed(Scan(w, cfg, t, l, sh, replies).sh.store)
  {
    ScanRecords(w, cfg, t, l, sh, replies);
  }

  /** Reconciles one target and says which job that was. */
  method ReconcileOne(a: Adapter, t: Target, client: Client, x: Answers) returns (ghost job: Job)
    requires client.target == t.scope && WellKeyed(client.server.runs) && Usable(x)
    modifies client.server, a.creationBackoff
    ensures Ran(job, t, x)
    ensures JobListed(job, old(client.server.runs))
    ensures job.s.listed.Some? <==> x.listable
    ensures Shared(client.server.runs, a.creationBackoff.entries) ==
            Whole(a.w, a.cfg, t, job.s, Shared(old(client.server.runs), old(a.creationBackoff.entries))).1
    ensures WellKeyed(client.server.runs)
  {
    var created, skipped, listed := a.ReconcileTarget(t, client, x.alerts, x.listable, x.now, x.replies);
    job := JobOf(t, x, listed);
    if x.alerts.Some? && x.listable {
      ScanKeepsKeys(a.w, a.cfg, t, Start(x.alerts.value, listed, x.now),
                    Shared(old(client.server.runs), old(a.creationBackoff.entries)), x.replies);
    }
  }

  ghost predicate ScopesDiffer(ts: seq<Target>) {
    forall i, j :: 0 <= i < j < |ts| ==> ts[i].scope != ts[j].scope
  }

  /** What the next target lists now is what it would have listed at the start of the cycle. */
  lemma NextListed(w: World, cfg: Config, jobs: seq<Job>, job: Job, start: Shared)
    requires AllComplete(jobs)
    requires forall k :: 0 <= k < |jobs| ==> jobs[k].t.scope != job.t.scope
    requires ListedAtStart(jobs, start.store) && JobListed(job, Sequential(w, cfg, jobs, start, |jobs|).store)
    ensures ListedAtStart(jobs + [job], start.store)
  {
    if job.s.alerts.Some? && job.s.listed.Some? {
      SequentialKeepsView(w, cfg, jobs, start, |jobs|, job.t.scope);
      SameListings(start.store, Sequential(w, cfg, jobs, start, |jobs|).store, job.t.scope, job.s.listed.value);
    }
  }

  /** Every complete interleaving of the jobs ends in the given state, and is a real one, with
      true list answers, when the scopes are distinct. */
  ghost predicate AlwaysEnds(w: World, cfg: Config, jobs: seq<Job>, start: Shared, end: Shared) {
    forall sched :: Legal(jobs, sched) && AllDone(Play(w, cfg, jobs, start, sched)) ==>
      && Play(w, cfg, jobs, start, sched).sh == end
      && (DistinctScopes(jobs) ==> TrueAnswers(w, cfg, jobs, start, sched))
  }

  /** Concurrency makes no difference to the end exactly when no two jobs add one name alone. */
  ghost predicate SameConcurrently(w: World, cfg: Config, jobs: seq<Job>, start: Shared, end: Shared)
    requires AllComplete(jobs)
  {
    DistinctNames(jobs) ==>
      && (Apart(w, cfg, jobs, start) ==> AlwaysEnds(w, cfg, jobs, start, end))
      && (DistinctScopes(jobs) && AlwaysEnds(w, cfg, jobs, start, end) ==> Apart(w, cfg, jobs, start))
  }

  lemma SequentialIsConcurrent(w: World, cfg: Config, jobs: seq<Job>, start: Shared)
    requires AllComplete(jobs)
    requires DistinctScopes(jobs) ==> ListedAtStart(jobs, start.store)
    ensures SameConcurrently(w, cfg, jobs, start, Sequential(w, cfg, jobs, start, |jobs|))
  {
    hide Play, Sequential, TrueAnswers, ListedAtStart, Apart, AllDone;
    var end := Sequential(w, cfg, jobs, start, |jobs|);
    if DistinctNames(jobs) && Apart(w, cfg, jobs, start) {
      forall sched | Legal(jobs, sched) && AllDone(Play(w, cfg, jobs, start, sched))
        ensures Play(w, cfg, jobs, start, sched).sh == end
        ensures DistinctScopes(jobs) ==> TrueAnswers(w, cfg, jobs, start, sched)
      {
        InterleavingIsSequential(w, cfg, jobs, start, sched);
        if DistinctScopes(jobs) { TrueAnswersIff(w, cfg, jobs, start, sched); }
      }
    }
    if DistinctNames(jobs) && DistinctScopes(jobs) && !Apart(w, cfg, jobs, start) {
      var s1, s2 := NotApartSplits(w, cfg, jobs, start);
    }
  }

  /** A suspended or unreadable cycle does nothing; otherwise expired backoff entries are
      collected and each target of the snapshot is reconciled once, with the effect that every
      concurrent cycle with the same answers has as long as no two jobs add one name. */
  method Reconcile(a: Adapter, suspended: Option<bool>, targets: seq<Target>, clients: seq<Client>, server: Server,
                   answers: seq<Answers>, clock: Time)
    returns (ghost jobs: seq<Job>)
    requires |targets| == |clients| == |answers| && WellKeyed(server.runs)
    requires forall k :: 0 <= k < |clients| ==> clients[k].server == server && clients[k].target == targets[k].scope
    requires forall k :: 0 <= k < |answers| ==> Usable(answers[k])
    modifies server, a.creationBackoff
    ensures suspended != Some(false) ==>
        server.runs == old(server.runs) && a.creationBackoff.entries == old(a.creationBackoff.entries)
    ensures suspended == Some(false) ==>
              && |jobs| == |targets| && AllComplete(jobs)
              && (forall k :: 0 <= k < |jobs| ==> Ran(jobs[k], targets[k], answers[k]))
              && Shared(server.runs, a.creationBackoff.entries) ==
                   Sequential(a.w, a.cfg, jobs,
                              Shared(old(server.runs), Collected(old(a.creationBackoff.entries), clock)), |jobs|)
              && SameConcurrently(a.w, a.cfg, jobs,
                                  Shared(old(server.runs), Collected(old(a.creationBackoff.entries), clock)),
                                  Shared(server.runs, a.creationBackoff.entries))
  {
    jobs := [];
    if suspended != Some(false) {
      return;
    }
    a.creationBackoff.GC(clock);
    ghost var start := Shared(server.runs, a.creationBackoff.entries);
    for k := 0 to |targets|
      invariant |jobs| == k && WellKeyed(server.runs)
      invariant AllComplete(jobs)
      invariant forall m :: 0 <= m < k ==> Ran(jobs[m], targets[m], answers[m])
      invariant Shared(server.runs, a.creationBackoff.entries) == Sequential(a.w, a.cfg, jobs, start, k)
      invariant ScopesDiffer(targets) ==> ListedAtStart(jobs, start.store)
    {
      ghost var job := ReconcileOne(a, targets[k], clients[k], answers[k]);
      assert AllComplete(jobs + [job]);
      SequentialPrefix(a.w, a.cfg, jobs, [job], start, k);
      assert (jobs + [job])[k] == job;
      if ScopesDiffer(targets) { NextListed(a.w, a.cfg, jobs, job, start); }
      jobs := jobs + [job];
    }
    assert DistinctScopes(jobs) ==> ScopesDiffer(targets);
    SequentialIsConcurrent(a.w, a.cfg, jobs, start);
  }
}
