/** Listings in an interleaving: with distinct scopes no other task can change what a task's
    list call returns, so answers that are true in one schedule are true in every one. */
module Listings {
  import opened Runs
  import opened Clients
  import opened Decisions
  import opened Tasks
  import opened Solo
  import opened Interleaving

  ghost predicate Holds(store: Store, r: Run) {
    r.name in store && store[r.name] == r
  }

  /** The two stores hold the same runs of the scope. */
  ghost predicate SameView(a: Store, b: Store, scope: string) {
    forall r :: InScope(scope, r) ==> (Holds(a, r) <==> Holds(b, r))
  }

  lemma SameListings(a: Store, b: Store, scope: string, listed: seq<Run>)
    requires SameView(a, b, scope)
    ensures IsListing(a, scope, listed) <==> IsListing(b, scope, listed)
  {
    assert forall r :: Holds(a, r) && InScope(scope, r) <==> Holds(b, r) && InScope(scope, r);
    assert forall r :: Holds(a, r) <==> r.name in a && a[r.name] == r;
    assert forall r :: Holds(b, r) <==> r.name in b && b[r.name] == r;
  }


  /** A task writes in its own scope only. */
  lemma MoveKeepsView(w: World, cfg: Config, j: Job, task: Task, sh: Shared, scope: string)
    requires TaskOf(w, cfg, j, task) && scope != j.t.scope
    ensures SameView(sh.store, Move(w, cfg, j.t, j.s, task, sh).1.store, scope)
  {
    if task.Creating? {
      var l := task.l;
      var sent := Sent(j.t, task.run, InputFor(j.s, task).clock);
      BuiltFacts(w, l.alerts[l.i], GroupOf(w, cfg, l.alerts[l.i]), j.t.id);
      ScopedFacts(j.t.scope, task.run);
      assert InScope(j.t.scope, sent);
      if InScope(scope, sent) { ScopesDisjoint(scope, j.t.scope, sent); }
      CreatingMove(w, cfg, j, l, task.run, task.seen, sh);
    } else if !task.Settling? {
      MoveKeepsShared(w, cfg, j, task, sh);
    }
  }

  lemma {:induction false} PlayTaskOf(w: World, cfg: Config, jobs: seq<Job>, sh: Shared, sched: seq<nat>, k: nat)
    requires Legal(jobs, sched) && k < |jobs|
    ensures TaskOf(w, cfg, jobs[k], Play(w, cfg, jobs, sh, sched).tasks[k])
    decreases |sched|
  {
    hide Move, TaskOf;
    if sched == [] {
      FetchingTaskOf(w, cfg, jobs[k]);
    } else {
      var init := sched[..|sched| - 1];
      PlayTaskOf(w, cfg, jobs, sh, init, k);
      var c := Play(w, cfg, jobs, sh, init);
      MoveKeepsTaskOf(w, cfg, jobs[k], c.tasks[k], c.sh);
    }
  }

  predicate Unlisted(task: Task) {
    task.Fetching? || task.Listing?
  }

  lemma UnlistedMove(w: World, cfg: Config, j: Job, task: Task, sh: Shared)
    ensures Unlisted(Move(w, cfg, j.t, j.s, task, sh).0) ==> task.Fetching?
    ensures task.Fetching? ==> Move(w, cfg, j.t, j.s, task, sh).1 == sh
    ensures task.Fetching? && j.s.alerts.Some? ==> Move(w, cfg, j.t, j.s, task, sh).0.Listing?
  {
  }

  /** Until a task has listed, its scope is as it was when the cycle began. */
  lemma {:induction false} ViewBeforeListing(w: World, cfg: Config, jobs: seq<Job>, sh: Shared, sched: seq<nat>, k: nat)
    requires Legal(jobs, sched) && DistinctScopes(jobs) && k < |jobs|
    requires Unlisted(Play(w, cfg, jobs, sh, sched).tasks[k])
    ensures SameView(sh.store, Play(w, cfg, jobs, sh, sched).sh.store, jobs[k].t.scope)
    decreases |sched|
  {
    hide Move, TaskOf;
    if sched != [] {
      var init, m := sched[..|sched| - 1], sched[|sched| - 1];
      var c := Play(w, cfg, jobs, sh, init);
      UnlistedMove(w, cfg, jobs[m], c.tasks[m], c.sh);
      ViewBeforeListing(w, cfg, jobs, sh, init, k);
      if m != k {
        PlayTaskOf(w, cfg, jobs, sh, init, m);
        MoveKeepsView(w, cfg, jobs[m], c.tasks[m], c.sh, jobs[k].t.scope);
      }
    }
  }

  /** Whenever a task is about to list, its script holds a listing of the store at that moment. */
  ghost predicate TrueAnswers(w: World, cfg: Config, jobs: seq<Job>, sh: Shared, sched: seq<nat>)
    requires Legal(jobs, sched)
  {
    forall n, k :: 0 <= n <= |sched| && 0 <= k < |jobs| ==> TrueAt(w, cfg, jobs, sh, sched[..n], k)
  }

  ghost predicate TrueAt(w: World, cfg: Config, jobs: seq<Job>, sh: Shared, sched: seq<nat>, k: nat)
    requires Legal(jobs, sched) && k < |jobs|
  {
    var c := Play(w, cfg, jobs, sh, sched);
    c.tasks[k].Listing? && jobs[k].s.listed.Some? ==> IsListing(c.sh.store, jobs[k].t.scope, jobs[k].s.listed.value)
  }

  /** Each script holds a listing of the store the cycle began with. */
  ghost predicate ListedAtStart(jobs: seq<Job>, store: Store) {
    forall k :: 0 <= k < |jobs| ==> JobListed(jobs[k], store)
  }

  ghost predicate JobListed(j: Job, store: Store) {
    j.s.alerts.Some? && j.s.listed.Some? ==> IsListing(store, j.t.scope, j.s.listed.value)
  }

  /** A task that has gone beyond fetching has been about to list. */
  lemma {:induction false} ReachesListing(w: World, cfg: Config, jobs: seq<Job>, sh: Shared, sched: seq<nat>, k: nat)
    returns (n: nat)
    requires Legal(jobs, sched) && k < |jobs| && jobs[k].s.alerts.Some?
    requires !Play(w, cfg, jobs, sh, sched).tasks[k].Fetching?
    ensures n <= |sched| && Play(w, cfg, jobs, sh, sched[..n]).tasks[k].Listing?
    decreases |sched|
  {
    hide Move;
    var init, m := sched[..|sched| - 1], sched[|sched| - 1];
    var c := Play(w, cfg, jobs, sh, init);
    if c.tasks[k].Fetching? {
      UnlistedMove(w, cfg, jobs[m], c.tasks[m], c.sh);
      n := |sched|;
      assert sched[..n] == sched;
    } else {
      n := ReachesListing(w, cfg, jobs, sh, init, k);
      assert init[..n] == sched[..n];
    }
  }

  lemma TrueAtIff(w: World, cfg: Config, jobs: seq<Job>, sh: Shared, sched: seq<nat>, k: nat)
    requires Legal(jobs, sched) && DistinctScopes(jobs) && k < |jobs|
    ensures JobListed(jobs[k], sh.store) ==> TrueAt(w, cfg, jobs, sh, sched, k)
    ensures Play(w, cfg, jobs, sh, sched).tasks[k].Listing? && TrueAt(w, cfg, jobs, sh, sched, k) ==>
        JobListed(jobs[k], sh.store)
  {
    var c := Play(w, cfg, jobs, sh, sched);
    if c.tasks[k].Listing? && jobs[k].s.listed.Some? {
      ViewBeforeListing(w, cfg, jobs, sh, sched, k);
      PlayTaskOf(w, cfg, jobs, sh, sched, k);
      SameListings(sh.store, c.sh.store, jobs[k].t.scope, jobs[k].s.listed.value);
    }
  }

  /** In a complete schedule the list answers are true exactly when each is a listing of the
      store the cycle began with, whatever the schedule. */
  lemma TrueAnswersIff(w: World, cfg: Config, jobs: seq<Job>, sh: Shared, sched: seq<nat>)
    requires Legal(jobs, sched) && DistinctScopes(jobs) && AllDone(Play(w, cfg, jobs, sh, sched))
    ensures TrueAnswers(w, cfg, jobs, sh, sched) <==> ListedAtStart(jobs, sh.store)
  {
    hide Play, JobListed, TrueAt;
    if ListedAtStart(jobs, sh.store) {
      forall n, k | 0 <= n <= |sched| && 0 <= k < |jobs| ensures TrueAt(w, cfg, jobs, sh, sched[..n], k) {
        TrueAtIff(w, cfg, jobs, sh, sched[..n], k);
      }
    }
    if TrueAnswers(w, cfg, jobs, sh, sched) {
      forall k | 0 <= k < |jobs| ensures JobListed(jobs[k], sh.store) {
        if jobs[k].s.alerts.Some? {
          var n := ReachesListing(w, cfg, jobs, sh, sched, k);
          TrueAtIff(w, cfg, jobs, sh, sched[..n], k);
          assert TrueAt(w, cfg, jobs, sh, sched[..n], k);
        } else {
          NothingListed(jobs[k], sh.store);
        }
      }
    }
  }

  lemma NothingListed(j: Job, store: Store)
    requires j.s.alerts.None?
    ensures JobListed(j, store)
  {
  }

  /** List answers that are true in one complete schedule are true in every one, and all of them
      end alike. */
  lemma TrueConfluence(w: World, cfg: Config, jobs: seq<Job>, sh: Shared, s1: seq<nat>, s2: seq<nat>)
    requires AllComplete(jobs) && DistinctNames(jobs) && DistinctScopes(jobs) && Apart(w, cfg, jobs, sh)
    requires Legal(jobs, s1) && Legal(jobs, s2)
    requires AllDone(Play(w, cfg, jobs, sh, s1)) && AllDone(Play(w, cfg, jobs, sh, s2))
    requires TrueAnswers(w, cfg, jobs, sh, s1)
    ensures TrueAnswers(w, cfg, jobs, sh, s2)
    ensures Play(w, cfg, jobs, sh, s1) == Play(w, cfg, jobs, sh, s2)
  {
    TrueAnswersIff(w, cfg, jobs, sh, s1);
    TrueAnswersIff(w, cfg, jobs, sh, s2);
    Confluence(w, cfg, jobs, sh, s1, s2);
  }

  // ---------------------------------------------------------------- one target after another

  lemma {:induction false} MovesKeepView(w: World, cfg: Config, j: Job, task: Task, sh: Shared, n: nat, scope: string)
    requires TaskOf(w, cfg, j, task) && scope != j.t.scope
    ensures SameView(sh.store, Moves(w, cfg, j.t, j.s, task, sh, n).1.store, scope)
    decreases n
  {
    if n > 0 {
      var (next, after) := Move(w, cfg, j.t, j.s, task, sh);
      MoveKeepsView(w, cfg, j, task, sh, scope);
      MoveKeepsTaskOf(w, cfg, j, task, sh);
      MovesKeepView(w, cfg, j, next, after, n - 1, scope);
    }
  }

  /** A whole task leaves other scopes as they were. */
  lemma WholeKeepsView(w: World, cfg: Config, j: Job, sh: Shared, scope: string)
    requires j.s.Complete() && scope != j.t.scope
    ensures SameView(sh.store, Whole(w, cfg, j.t, j.s, sh).1.store, scope)
  {
    var n := WholeIsMoves(w, cfg, j.t, j.s, sh);
    FetchingTaskOf(w, cfg, j);
    MovesKeepView(w, cfg, j, Fetching, sh, n, scope);
  }

  lemma {:induction false} SequentialKeepsView(w: World, cfg: Config, jobs: seq<Job>, sh: Shared, n: nat, scope: string)
    requires n <= |jobs| && AllComplete(jobs)
    requires forall k :: 0 <= k < n ==> jobs[k].t.scope != scope
    ensures SameView(sh.store, Sequential(w, cfg, jobs, sh, n).store, scope)
    decreases n
  {
    if n > 0 {
      SequentialKeepsView(w, cfg, jobs, sh, n - 1, scope);
      WholeKeepsView(w, cfg, jobs[n - 1], Sequential(w, cfg, jobs, sh, n - 1), scope);
    }
  }
}
