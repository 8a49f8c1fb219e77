/** What the adapter decides about one alert, given the runs its task knows of. */
module Decisions {
  import opened Text
  import opened Names
  import opened Sanitizers
  import opened Fingerprints
  import opened Runs
  import opened Clients

  datatype Alert = Alert(
    fingerprint: Option<string>,
    startsAt: Option<Time>,
    labels: Labels,
    receivers: seq<Option<string>>)

  datatype Config = Config(
    preRunDelay: Time,
    postRunDelay: Time,
    allowedReceivers: seq<string>,
    ignoredLabels: seq<string>)

  /** `scope` is the identity the target's run client was made with; `id` is empty for the hub. */
  datatype Target = Target(name: string, id: string, scope: string)

  /** Code of other programs and libraries, as functions about which nothing more is known. */
  datatype World = World(
    phaseOf: PhaseOf,
    sum64: Sum64,
    sha: string -> ShaHex,
    rfc3339: Time -> string,
    lower: string -> string,
    renders: Alert -> bool)
  {
    /** A run without conditions has not terminated. */
    ghost predicate Valid() {
      phaseOf([]).Ongoing?
    }
  }

  // ---------------------------------------------------------------- filters

  predicate SkipReceiver(receivers: seq<Option<string>>, allowed: seq<string>, lower: string -> string) {
    receivers == [] ||
    (!(receivers[0].Some? && lower(receivers[0].value) in allowed) && SkipReceiver(receivers[1..], allowed, lower))
  }

  lemma {:induction false} SkipReceiverIff(receivers: seq<Option<string>>, allowed: seq<string>,
                                           lower: string -> string)
    ensures SkipReceiver(receivers, allowed, lower) <==>
            forall name :: Some(name) in receivers ==> lower(name) !in allowed
  {
    if receivers != [] {
      SkipReceiverIff(receivers[1..], allowed, lower);
      assert forall r :: r in receivers <==> r == receivers[0] || r in receivers[1..];
    }
  }

  predicate TooEarly(startsAt: Option<Time>, now: Time, threshold: Time) {
    startsAt.None? || now - startsAt.value < threshold
  }

  // ---------------------------------------------------------------- building a run

  ghost function GroupOf(w: World, cfg: Config, a: Alert): (fp: string)
    ensures |fp| == FINGERPRINT_LEN
  {
    Fingerprint(a.labels, cfg.ignoredLabels, w.sum64)
  }

  /** Two alerts are of one group iff they agree on every label not ignored, or else their hashed
      bytes differ and collide in the upper 32 bits of the hash. */
  lemma SameGroupIff(w: World, cfg: Config, a: Alert, b: Alert)
    ensures var x, y := Hashed(a.labels, cfg.ignoredLabels), Hashed(b.labels, cfg.ignoredLabels);
            GroupOf(w, cfg, a) == GroupOf(w, cfg, b) <==>
            (forall k :: (k in a.labels && k !in cfg.ignoredLabels <==> k in b.labels && k !in cfg.ignoredLabels) &&
                         (k in a.labels && k !in cfg.ignoredLabels ==> a.labels[k] == b.labels[k])) ||
            (x != y && w.sum64(x) / 0x1_0000_0000 == w.sum64(y) / 0x1_0000_0000)
  {
    SameKeyIff(a.labels, b.labels, cfg.ignoredLabels, w.sum64);
    hide Hashed, Fingerprint;
  }

  function BaseName(w: World, a: Alert, startsAt: Time, targetID: string): string {
    BuildName(Lookup(a.labels, "alertname"), Lookup(a.labels, "namespace"),
              OccurrenceHash(w.rfc3339(startsAt), targetID, w.sha), w.lower)
  }

  /** A base name in terms of the alert: the labels "alertname" and "namespace", and the first
      eight digits of the digest of start time and target identity. */
  lemma BaseNameLayout(w: World, a: Alert, startsAt: Time, targetID: string)
    returns (name: string, ns: string, head: string)
    ensures Cleaned(w.lower(if "alertname" in a.labels then a.labels["alertname"] else ""), name)
    ensures Cleaned(w.lower(if "namespace" in a.labels then a.labels["namespace"] else ""), ns)
    ensures var plain := "namespace" !in a.labels || a.labels["namespace"] == "";
            var occurrence := w.rfc3339(startsAt) + if targetID == "" then "" else "\0" + targetID;
            var rest := (if plain then "" else "-" + ns) + "-" + w.sha(occurrence)[..8];
            && BaseName(w, a, startsAt, targetID) == head + rest
            && LongestCut(name, head, if |rest| < 62 then 63 - |rest| else 1)
  {
    var hash := OccurrenceHash(w.rfc3339(startsAt), targetID, w.sha);
    name, ns, head := BuildNameLayout(Lookup(a.labels, "alertname"), Lookup(a.labels, "namespace"), hash, w.lower);
    var input := w.rfc3339(startsAt) + if targetID == "" then "" else "\0" + targetID;
    assert HashInput(w.rfc3339(startsAt), targetID) == input;
    hide LongestCut, Cleaned, BuildName;
  }

  function RunLabels(original: string, group: string, alertName: string, severity: string): map<string, string> {
    map[LABEL_SOURCE := SOURCE_VALUE,
        LABEL_FINGERPRINT := original,
        LABEL_DEDUP_FINGERPRINT := group,
        LABEL_ALERT_NAME := alertName,
        LABEL_SEVERITY := severity]
  }

  function BuildLabels(w: World, a: Alert, originalFP: string, stableFP: string): map<string, string> {
    RunLabels(SanitizeLabelValue(CutTo(originalFP, FINGERPRINT_LEN)), stableFP,
              SanitizeLabelValue(w.lower(Lookup(a.labels, "alertname"))),
              SanitizeLabelValue(Lookup(a.labels, "severity")))
  }

  function BuildWith(w: World, a: Alert, stableFP: string, targetID: string): Option<Run> {
    if a.fingerprint.None? || a.startsAt.None? || !w.renders(a) then None
    else Some(Run(BaseName(w, a, a.startsAt.value, targetID),
                  BuildLabels(w, a, a.fingerprint.value, stableFP), [], 0))
  }

  // ---------------------------------------------------------------- the decision

  datatype Verdict = Skip | BuildFailed | Propose(run: Run)

  /** The filters, in the program's order. */
  predicate Passes(w: World, cfg: Config, a: Alert, fp: string, runs: seq<Run>, now: Time) {
    && !SkipReceiver(a.receivers, cfg.allowedReceivers, w.lower)
    && !(cfg.preRunDelay > 0 && TooEarly(a.startsAt, now, cfg.preRunDelay))
    && !HasActiveRun(fp, runs, w.phaseOf)
    && !(cfg.postRunDelay > 0 && TooRecent(fp, runs, now, cfg.postRunDelay, w.phaseOf))
  }

  function Renamed(w: World, p: Run, fp: string, runs: seq<Run>): Run {
    if HasEmergencyStoppedNameConflict(p.name, fp, runs, w.phaseOf)
    then p.(name := NextName(p.name, RunNames(runs)))
    else p
  }

  /** Everything the program checks before it looks at the backoff table. */
  ghost function Judge(w: World, cfg: Config, t: Target, a: Alert, runs: seq<Run>, now: Time): Verdict {
    var fp := GroupOf(w, cfg, a);
    if !Passes(w, cfg, a, fp, runs, now) then Skip
    else
      match BuildWith(w, a, fp, t.id)
      case None => BuildFailed
      case Some(p) => Propose(Renamed(w, p, fp, runs))
  }

  function BackoffKey(targetName: string, fp: string): string {
    targetName + "\0" + fp
  }

  /** Group keys have a fixed length, so backoff keys of distinctly named targets never meet. */
  lemma BackoffKeyInjective(n1: string, f1: string, n2: string, f2: string)
    requires |f1| == |f2|
    ensures BackoffKey(n1, f1) == BackoffKey(n2, f2) ==> n1 == n2 && f1 == f2
  {
    var a, b := BackoffKey(n1, f1), BackoffKey(n2, f2);
    assert a[..|n1|] == n1 && a[|n1| + 1..] == f1;
    assert b[..|n2|] == n2 && b[|n2| + 1..] == f2;
  }

  lemma LabelKeysDiffer()
    ensures LABEL_SPOKE_CLUSTER != LABEL_SOURCE && LABEL_SPOKE_CLUSTER != LABEL_FINGERPRINT
    ensures LABEL_SPOKE_CLUSTER != LABEL_DEDUP_FINGERPRINT && LABEL_SPOKE_CLUSTER != LABEL_ALERT_NAME
    ensures LABEL_SPOKE_CLUSTER != LABEL_SEVERITY
    ensures LABEL_SOURCE != LABEL_FINGERPRINT && LABEL_SOURCE != LABEL_DEDUP_FINGERPRINT
    ensures LABEL_SOURCE != LABEL_ALERT_NAME && LABEL_SOURCE != LABEL_SEVERITY
    ensures LABEL_DEDUP_FINGERPRINT != LABEL_ALERT_NAME && LABEL_DEDUP_FINGERPRINT != LABEL_SEVERITY
    ensures LABEL_DEDUP_FINGERPRINT != LABEL_FINGERPRINT
  {
    assert LABEL_SPOKE_CLUSTER[0] == 'h' &&
        LABEL_SOURCE[0] == LABEL_FINGERPRINT[0] == LABEL_DEDUP_FINGERPRINT[0] == 'a';
    assert LABEL_ALERT_NAME[0] == LABEL_SEVERITY[0] == 'a';
    assert LABEL_DEDUP_FINGERPRINT[27] == 'g' && LABEL_SEVERITY[27] == 's';
  }

  lemma RunLabelsFacts(original: string, group: string, alertName: string, severity: string)
    ensures var labels := RunLabels(original, group, alertName, severity);
            && LABEL_SOURCE in labels && labels[LABEL_SOURCE] == SOURCE_VALUE
            && LABEL_DEDUP_FINGERPRINT in labels && labels[LABEL_DEDUP_FINGERPRINT] == group
            && LABEL_SPOKE_CLUSTER !in labels
  {
    LabelKeysDiffer();
  }

  /** The labels of a built run, key by key. */
  lemma BuiltLabels(w: World, a: Alert, fp: string, id: string)
    requires BuildWith(w, a, fp, id).Some?
    ensures a.fingerprint.Some?
    ensures var original := a.fingerprint.value;
            BuildWith(w, a, fp, id).value.labels == map[
              "agentic.openshift.io/source" := "alertmanager",
              "agentic.openshift.io/alert-fingerprint" :=
                SanitizeLabelValue(if |original| <= 8 then original else original[..8]),
              "agentic.openshift.io/alert-group-id" := fp,
              "agentic.openshift.io/alert-name" :=
                SanitizeLabelValue(w.lower(if "alertname" in a.labels then a.labels["alertname"] else "")),
              "agentic.openshift.io/alert-severity" :=
                SanitizeLabelValue(if "severity" in a.labels then a.labels["severity"] else "")]
  {
    hide SanitizeLabelValue;
  }

  lemma BuiltFacts(w: World, a: Alert, fp: string, id: string)
    requires BuildWith(w, a, fp, id).Some?
    ensures var p := BuildWith(w, a, fp, id).value;
            && Group(p) == fp && p.conditions == []
            && LABEL_SOURCE in p.labels && p.labels[LABEL_SOURCE] == SOURCE_VALUE
            && LABEL_SPOKE_CLUSTER !in p.labels
  {
    RunLabelsFacts(SanitizeLabelValue(CutTo(a.fingerprint.value, FINGERPRINT_LEN)), fp,
                   SanitizeLabelValue(w.lower(Lookup(a.labels, "alertname"))),
                   SanitizeLabelValue(Lookup(a.labels, "severity")));
  }

  lemma ScopedFacts(scope: string, p: Run)
    requires LABEL_SOURCE in p.labels && p.labels[LABEL_SOURCE] == SOURCE_VALUE
    requires LABEL_SPOKE_CLUSTER !in p.labels
    ensures InScope(scope, Scoped(scope, p)) && Group(Scoped(scope, p)) == Group(p)
  {
    LabelKeysDiffer();
  }

  /** A proposed run is in its target's scope under the very key the next check looks for,
      it is active, and its group has neither an active nor a recent run in the list. */
  lemma ProposalFacts(w: World, cfg: Config, t: Target, a: Alert, runs: seq<Run>, now: Time, clock: Time)
    requires w.Valid()
    requires Judge(w, cfg, t, a, runs, now).Propose?
    ensures var p := Judge(w, cfg, t, a, runs, now).run;
            var sent := Scoped(t.scope, p).(created := clock);
            && Group(p) == Group(sent) == GroupOf(w, cfg, a)
            && InScope(t.scope, sent)
            && sent.name == p.name
            && sent.conditions == []
            && IsActive(sent, w.phaseOf)
            && !HasActiveRun(Group(sent), runs, w.phaseOf)
            && (cfg.postRunDelay > 0 ==> !TooRecent(Group(sent), runs, now, cfg.postRunDelay, w.phaseOf))
  {
    BuiltFacts(w, a, GroupOf(w, cfg, a), t.id);
    ScopedFacts(t.scope, Judge(w, cfg, t, a, runs, now).run);
  }

  ghost predicate Reaches(a: Alert, cfg: Config, lower: string -> string) {
    exists name :: Some(name) in a.receivers && lower(name) in cfg.allowedReceivers
  }

  /** No listed run of the group is in an active phase, and none was ended by a condition that
      changed within the cooldown. */
  ghost predicate GroupIsFree(runs: seq<Run>, fp: string, now: Time, cooldown: Time, phaseOf: PhaseOf) {
    forall r :: r in runs && Group(r) == fp ==>
      var phase := phaseOf(r.conditions);
      && phase in {Completed, Failed, Denied, Escalated, EmergencyStopped}
      && forall i :: cooldown > 0 && EndedBy(r.conditions, phase, i) ==>
           now - r.conditions[i].lastTransition >= cooldown
  }

  ghost predicate OldEnough(a: Alert, cfg: Config, now: Time) {
    cfg.preRunDelay > 0 ==> a.startsAt.Some? && now - a.startsAt.value >= cfg.preRunDelay
  }

  /** The verdict in terms of the alert and the listed runs: an alert is skipped exactly when a
      filter holds it back, the build fails exactly when a part is missing, and only otherwise is
      a run proposed. */
  lemma VerdictIff(w: World, cfg: Config, t: Target, a: Alert, runs: seq<Run>, now: Time)
    ensures var v := Judge(w, cfg, t, a, runs, now);
            var passes := Reaches(a, cfg, w.lower) && OldEnough(a, cfg, now) &&
                          GroupIsFree(runs, GroupOf(w, cfg, a), now, cfg.postRunDelay, w.phaseOf);
            var buildable := a.fingerprint.Some? && a.startsAt.Some? && w.renders(a);
            && (v.Skip? <==> !passes)
            && (v.BuildFailed? <==> passes && !buildable)
            && (v.Propose? <==> passes && buildable)
  {
    var fp := GroupOf(w, cfg, a);
    BuildsIff(w, a, fp, t.id);
    FreeIff(runs, fp, now, cfg.postRunDelay, w.phaseOf);
    ReachesIff(a, cfg, w.lower);
    hide GroupOf, GroupIsFree, Reaches, HasActiveRun, TooRecent, BuildWith, SkipReceiver;
  }

  lemma FreeIff(runs: seq<Run>, fp: string, now: Time, cooldown: Time, phaseOf: PhaseOf)
    ensures GroupIsFree(runs, fp, now, cooldown, phaseOf) <==>
            !HasActiveRun(fp, runs, phaseOf) && !(cooldown > 0 && TooRecent(fp, runs, now, cooldown, phaseOf))
  {
    HasActiveRunIff(fp, runs, phaseOf);
    TooRecentIff(fp, runs, now, cooldown, phaseOf);
    forall r | r in runs
      ensures IsActive(r, phaseOf) <==>
              phaseOf(r.conditions) !in {Completed, Failed, Denied, Escalated, EmergencyStopped}
      ensures TerminatedWithin(r, now, cooldown, phaseOf) <==>
              exists i :: EndedBy(r.conditions, phaseOf(r.conditions), i) &&
                          now - r.conditions[i].lastTransition < cooldown
    {
      EndedWithin(r, now, cooldown, phaseOf);
    }
    hide EndedBy, TerminatedWithin, IsActive, TerminalTime;
  }

  lemma EndedWithin(r: Run, now: Time, window: Time, phaseOf: PhaseOf)
    ensures TerminatedWithin(r, now, window, phaseOf) <==>
            exists i :: EndedBy(r.conditions, phaseOf(r.conditions), i) && now - r.conditions[i].lastTransition < window
  {
    var tt := TerminalTime(r, phaseOf);
    if tt.Some? { TerminalTimeIs(r, phaseOf, tt.value); }
    forall i | EndedBy(r.conditions, phaseOf(r.conditions), i) ensures tt == Some(r.conditions[i].lastTransition) {
      TerminalTimeIs(r, phaseOf, r.conditions[i].lastTransition);
    }
    hide EndedBy, TerminalTime;
  }

  lemma ReachesIff(a: Alert, cfg: Config, lower: string -> string)
    ensures Reaches(a, cfg, lower) <==> !SkipReceiver(a.receivers, cfg.allowedReceivers, lower)
  {
    SkipReceiverIff(a.receivers, cfg.allowedReceivers, lower);
  }

  lemma BuildsIff(w: World, a: Alert, fp: string, id: string)
    ensures BuildWith(w, a, fp, id).Some? <==> a.fingerprint.Some? && a.startsAt.Some? && w.renders(a)
  {
  }

  /** Whatever is stored stays stored with its name and labels; conditions may move on. */
  ghost predicate KeepsLabels(store: Store, later: Store) {
    forall n :: n in store ==> n in later && later[n].name == store[n].name && later[n].labels == store[n].labels
  }

  /** Create, then list: once the server has applied the request, whatever it reported, every
      later listing of the target shows the run under the very key the next check recomputes,
      and no listing of another scope shows it. */
  lemma CreateListRoundTrip(w: World, cfg: Config, t: Target, a: Alert, runs: seq<Run>, now: Time, clock: Time,
                            store: Store, fault: Fault, later: Store, mine: seq<Run>, scope: string, theirs: seq<Run>)
    requires w.Valid() && Judge(w, cfg, t, a, runs, now).Propose?
    requires var sent := Scoped(t.scope, Judge(w, cfg, t, a, runs, now).run).(created := clock);
             && sent.name !in store && !fault.FailBefore?
             && KeepsLabels(ServeCreate(store, sent, fault).0, later)
    requires IsListing(later, t.scope, mine) && IsListing(later, scope, theirs) && scope != t.scope
    ensures var name := Judge(w, cfg, t, a, runs, now).run.name;
            && name in later && later[name] in mine && Group(later[name]) == GroupOf(w, cfg, a)
            && (forall r :: r in theirs ==> r.name != name)
            && (forall r :: r in mine ==> r !in theirs)
  {
    ProposalFacts(w, cfg, t, a, runs, now, clock);
    var sent := Scoped(t.scope, Judge(w, cfg, t, a, runs, now).run).(created := clock);
    ServedKept(store, sent, fault, later);
    assert InScope(t.scope, later[sent.name]);
    forall r | r in theirs ensures r.name != sent.name && r !in mine {
      if r.name == sent.name || r in mine { ScopesDisjoint(scope, t.scope, r); }
    }
  }

  lemma ServedKept(store: Store, sent: Run, fault: Fault, later: Store)
    requires sent.name !in store && !fault.FailBefore? && KeepsLabels(ServeCreate(store, sent, fault).0, later)
    ensures sent.name in later && later[sent.name].name == sent.name && later[sent.name].labels == sent.labels
  {
    assert sent.name in ServeCreate(store, sent, fault).0;
  }

  /** A name that is proposed is the base name, or a retry name when the base belongs to an
      EmergencyStopped run of the same group; retry names are never names in the list. */
  lemma ProposedName(w: World, cfg: Config, t: Target, a: Alert, runs: seq<Run>, now: Time)
    requires Judge(w, cfg, t, a, runs, now).Propose?
    ensures var n, base, fp := Judge(w, cfg, t, a, runs, now).run.name, BaseName(w, a, a.startsAt.value, t.id),
        GroupOf(w, cfg, a);
            && (!HasEmergencyStoppedNameConflict(base, fp, runs, w.phaseOf) ==> n == base)
            && (HasEmergencyStoppedNameConflict(base, fp, runs, w.phaseOf) ==>
                  n !in RunNames(runs) && exists k :: 1 <= k <= |runs| + 1 && n == Candidate(base, k))
  {
    var base, fp := BaseName(w, a, a.startsAt.value, t.id), GroupOf(w, cfg, a);
    if HasEmergencyStoppedNameConflict(base, fp, runs, w.phaseOf) {
      ConflictIff(base, fp, runs, w.phaseOf);
      RunNamesCount(runs);
    }
  }

  /** A reported name conflict is a listed EmergencyStopped run of that name and group. */
  lemma {:induction false} ConflictIff(name: string, fp: string, runs: seq<Run>, phaseOf: PhaseOf)
    ensures HasEmergencyStoppedNameConflict(name, fp, runs, phaseOf) <==>
            exists r :: r in runs && r.name == name && Group(r) == fp && phaseOf(r.conditions) == EmergencyStopped
  {
    if runs != [] {
      ConflictIff(name, fp, runs[1..], phaseOf);
      assert forall r :: r in runs <==> r == runs[0] || r in runs[1..];
    }
  }

  lemma {:induction false} RunNamesCount(runs: seq<Run>)
    ensures |RunNames(runs)| <= |runs|
  {
    if runs == [] {
      assert RunNames(runs) == {};
    } else {
      RunNamesCount(runs[1..]);
      assert RunNames(runs) == RunNames(runs[1..]) + {runs[0].name};
    }
  }
}
