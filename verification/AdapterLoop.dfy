/** The reconcile task as the program runs it: a loop over the alerts that appends to its run
    list and updates the store and the shared backoff table. */
module AdapterLoop {
  import opened Text
  import opened Names
  import opened Fingerprints
  import opened Runs
  import opened Backoffs
  import opened Clients
  import opened Decisions
  import opened Tasks

  datatype Progress = Stopped | WasSkipped | BuildFailure | CreateFailure | Existed | WasCreated

  /** Go strings are shorter than 2^63 bytes. */
  ghost predicate Measurable(a: Alert) {
    forall k :: k in a.labels ==> |k| < 0x8000_0000_0000_0000 && |a.labels[k]| < 0x8000_0000_0000_0000
  }

  function NamesOf(runs: seq<Run>): seq<string> {
    seq(|runs|, i requires 0 <= i < |runs| => runs[i].name)
  }

  lemma NamesOfSet(runs: seq<Run>)
    ensures (set n | n in NamesOf(runs)) == RunNames(runs)
  {
    var names := NamesOf(runs);
    forall n ensures n in names <==> n in RunNames(runs) {
      if n in names {
        var i :| 0 <= i < |names| && names[i] == n;
        assert runs[i] in runs;
      }
      if n in RunNames(runs) {
        var r :| r in runs && r.name == n;
        var i :| 0 <= i < |runs| && runs[i] == r;
        assert names[i] == n;
      }
    }
  }

  /** How the loop's variables change with the progress made on one alert. */
  function Advanced(l: Loop, sent: Run, p: Progress): Loop {
    match p
    case Stopped => l
    case WasSkipped => Skipped(l)
    case BuildFailure => BuildErrored(l)
    case CreateFailure => SettledLoop(l, sent, Errored)
    case Existed => SettledLoop(l, sent, AlreadyExists)
    case WasCreated => SettledLoop(l, sent, Created)
  }

  class Adapter {
    const w: World
    const cfg: Config
    const creationBackoff: Backoff

    constructor (w: World, cfg: Config, creationBackoff: Backoff)
      ensures this.w == w && this.cfg == cfg && this.creationBackoff == creationBackoff
    {
      this.w := w;
      this.cfg := cfg;
      this.creationBackoff := creationBackoff;
    }

    /** The filters, the build and the retry name: what the program would create, if anything. */
    method Propose(t: Target, a: Alert, runs: seq<Run>, now: Time) returns (v: Verdict, stableFP: string)
      requires Measurable(a)
      ensures stableFP == GroupOf(w, cfg, a)
      ensures v == Judge(w, cfg, t, a, runs, now)
    {
      stableFP := StableFingerprint(a.labels, cfg.ignoredLabels, w.sum64);
      if SkipReceiver(a.receivers, cfg.allowedReceivers, w.lower) {
        return Skip, stableFP;
      }
      if cfg.preRunDelay > 0 && TooEarly(a.startsAt, now, cfg.preRunDelay) {
        return Skip, stableFP;
      }
      if HasActiveRun(stableFP, runs, w.phaseOf) {
        return Skip, stableFP;
      }
      if cfg.postRunDelay > 0 && TooRecent(stableFP, runs, now, cfg.postRunDelay, w.phaseOf) {
        return Skip, stableFP;
      }
      var built := BuildWith(w, a, stableFP, t.id);
      if built.None? {
        return BuildFailed, stableFP;
      }
      var p := built.value;
      if HasEmergencyStoppedNameConflict(p.name, stableFP, runs, w.phaseOf) {
        var name := NextAvailableName(p.name, NamesOf(runs));
        NamesOfSet(runs);
        p := p.(name := name);
      }
      v := Verdict.Propose(p);
    }

    /** The body of the alert loop. */
    method ProcessAlert(t: Target, client: Client, a: Alert, runs: seq<Run>, now: Time, reply: Reply, ghost l: Loop)
      returns (p: Progress, sent: Run)
      requires Measurable(a) && client.target == t.scope
      requires l.i < |l.alerts| && l.alerts[l.i] == a && l.runs == runs && l.now == now
      modifies client.server, creationBackoff
      ensures var o := Turn(w, cfg, t, l, Shared(old(client.server.runs), old(creationBackoff.entries)), reply);
              && client.server.runs == o.sh.store
              && creationBackoff.entries == o.sh.backoff
              && o.l == Advanced(l, sent, p)
              && (o.complete <==> p != Stopped)
    {
      hide Judge, GroupOf, Scoped, AfterFailure, InBackoff, ServeCreate, SettledLoop, Cleared, Measurable;
      sent := Run("", map[], [], 0);
      if reply.cancelledBefore {
        return Stopped, sent;
      }
      var v, stableFP := Propose(t, a, runs, now);
      if v.Skip? {
        return WasSkipped, sent;
      }
      if v.BuildFailed? {
        return BuildFailure, sent;
      }
      var backoffKey := BackoffKey(t.name, stableFP);
      var previousBackoff := creationBackoff.Get(backoffKey);
      var waiting := creationBackoff.IsInBackOffSinceUpdate(backoffKey, now);
      if waiting {
        return WasSkipped, sent;
      }
      var wasCreated, failed;
      ghost var store := client.server.runs;
      sent, wasCreated, failed := client.CreateAgenticRun(v.run, reply.created, reply.fault);
      ghost var answer := ServeCreate(store, sent, reply.fault).1;
      assert answer == if failed then Errored else if wasCreated then Created else AlreadyExists;
      if failed {
        if reply.cancelledAfter {
          return Stopped, sent;
        }
        creationBackoff.Next(backoffKey, now, reply.stamp);
        return CreateFailure, sent;
      }
      if previousBackoff > 0 {
        creationBackoff.Reset(backoffKey);
      }
      p := if wasCreated then WasCreated else Existed;
    }

    /** The alert loop refines Scan. */
    method ScanAlerts(t: Target, client: Client, alerts: seq<Alert>, listed: seq<Run>, now: Time, replies: seq<Reply>)
      returns (created: nat, skipped: nat)
      requires client.target == t.scope && |alerts| <= |replies|
      requires forall i :: 0 <= i < |alerts| ==> Measurable(alerts[i])
      modifies client.server, creationBackoff
      ensures var o := Scan(w, cfg, t, Start(alerts, listed, now),
                            Shared(old(client.server.runs), old(creationBackoff.entries)), replies);
              && client.server.runs == o.sh.store
              && creationBackoff.entries == o.sh.backoff
              && created == o.l.tally.created && skipped == o.l.tally.skipped
    {
      hide Turn, Measurable;
      var runs := listed;
      created, skipped := 0, 0;
      ghost var l := Start(alerts, listed, now);
      ghost var whole := Scan(w, cfg, t, l, Shared(client.server.runs, creationBackoff.entries), replies);
      var i := 0;
      while i < |alerts|
        invariant 0 <= i <= |alerts|
        invariant l == Loop(alerts, runs, now, i, l.tally)
        invariant created == l.tally.created && skipped == l.tally.skipped
        invariant SameEnd(whole, Scan(w, cfg, t, l, Shared(client.server.runs, creationBackoff.entries), replies))
      {
        ghost var before := Shared(client.server.runs, creationBackoff.entries);
        TurnAdvances(w, cfg, t, l, before, replies[i]);
        var p, sent := ProcessAlert(t, client, alerts[i], runs, now, replies[i], l);
        if p == Stopped {
          return;
        }
        l := Advanced(l, sent, p);
        i := i + 1;
        if p == WasSkipped {
          skipped := skipped + 1;
        } else if p == WasCreated {
          runs := runs + [sent];
          created := created + 1;
        }
      }
    }

    /** Reconciles one target.  `listed` is what the list call returned: the order of a listing
        is the server's choice. */
    method ReconcileTarget(t: Target, client: Client, gotAlerts: Option<seq<Alert>>, listable: bool, now: Time,
                           replies: seq<Reply>)
      returns (created: nat, skipped: nat, listed: seq<Run>)
      requires WellKeyed(client.server.runs) && client.target == t.scope
      requires gotAlerts.Some? ==> |gotAlerts.value| <= |replies| && forall i :: 0 <= i < |gotAlerts.value| ==>
          Measurable(gotAlerts.value[i])
      modifies client.server, creationBackoff
      ensures gotAlerts.None? || !listable ==>
                client.server.runs == old(client.server.runs) && creationBackoff.entries == old(creationBackoff.entries)
      ensures gotAlerts.Some? && listable ==>
                && IsListing(old(client.server.runs), t.scope, listed)
                && var o := Scan(w, cfg, t, Start(gotAlerts.value, listed, now),
                                 Shared(old(client.server.runs), old(creationBackoff.entries)), replies);
                   && client.server.runs == o.sh.store
                   && creationBackoff.entries == o.sh.backoff
                   && created == o.l.tally.created && skipped == o.l.tally.skipped
    {
      created, skipped, listed := 0, 0, [];
      if gotAlerts.None? {
        return;
      }
      if !listable {
        return;
      }
      listed := client.ListAgenticRuns();
      created, skipped := ScanAlerts(t, client, gotAlerts.value, listed, now, replies);
    }
  }

  /** Two outcomes end alike, whatever calls led there. */
  ghost predicate SameEnd(a: Outcome, b: Outcome) {
    a.l == b.l && a.sh == b.sh
  }
}
