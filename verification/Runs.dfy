/** Runs as the adapter sees them, and the scans that deduplicate against them. */
module Runs {
  import opened Text

  /** Nanoseconds on the one monotone clock; durations have the same unit. */
  type Time = int

  const LABEL_SOURCE := "agentic.openshift.io/source"
  const LABEL_FINGERPRINT := "agentic.openshift.io/alert-fingerprint"
  const LABEL_DEDUP_FINGERPRINT := "agentic.openshift.io/alert-group-id"
  const LABEL_ALERT_NAME := "agentic.openshift.io/alert-name"
  const LABEL_SEVERITY := "agentic.openshift.io/alert-severity"
  const LABEL_SPOKE_CLUSTER := "hub.openshift.io/spoke-cluster"
  const SOURCE_VALUE := "alertmanager"

  datatype Status = True | False | Unknown

  datatype Condition = Condition(ctype: string, status: Status, lastTransition: Time)

  /** `Ongoing` stands for every phase that is not one of the five terminal ones. */
  datatype Phase = Completed | Failed | Denied | Escalated | EmergencyStopped | Ongoing(name: string)

  const CONDITION_VERIFIED := "Verified"
  const CONDITION_DENIED := "Denied"
  const CONDITION_ESCALATED := "Escalated"
  const CONDITION_EMERGENCY_STOPPED := "EmergencyStopped"

  datatype Run = Run(name: string, labels: map<string, string>, conditions: seq<Condition>, created: Time)

  /** The operator's phase derivation; it belongs to another program. */
  type PhaseOf = seq<Condition> -> Phase

  function Lookup(labels: map<string, string>, key: string): string {
    if key in labels then labels[key] else ""
  }

  function Group(r: Run): string {
    Lookup(r.labels, LABEL_DEDUP_FINGERPRINT)
  }

  predicate IsTerminal(p: Phase) {
    !p.Ongoing?
  }

  predicate IsActive(r: Run, phaseOf: PhaseOf) {
    !IsTerminal(phaseOf(r.conditions))
  }

  /** The type of the first condition with status False, or "" when there is none. */
  function FindFailedConditionType(conditions: seq<Condition>): string {
    if conditions == [] then ""
    else if conditions[0].status == False then conditions[0].ctype
    else FindFailedConditionType(conditions[1..])
  }

  /** The transition time of the first condition of the given type. */
  function FirstTransition(conditions: seq<Condition>, ctype: string): Option<Time> {
    if conditions == [] then None
    else if conditions[0].ctype == ctype then Some(conditions[0].lastTransition)
    else FirstTransition(conditions[1..], ctype)
  }

  function TerminalConditionType(r: Run, phaseOf: PhaseOf): string {
    match phaseOf(r.conditions)
    case Completed => CONDITION_VERIFIED
    case Failed => FindFailedConditionType(r.conditions)
    case Denied => CONDITION_DENIED
    case Escalated => CONDITION_ESCALATED
    case EmergencyStopped => CONDITION_EMERGENCY_STOPPED
    case Ongoing(_) => ""
  }

  function TerminalTime(r: Run, phaseOf: PhaseOf): Option<Time> {
    var ctype := TerminalConditionType(r, phaseOf);
    if ctype == "" then None else FirstTransition(r.conditions, ctype)
  }

  predicate HasActiveRun(fp: string, runs: seq<Run>, phaseOf: PhaseOf) {
    |runs| > 0 &&
    ((Group(runs[0]) == fp && IsActive(runs[0], phaseOf)) || HasActiveRun(fp, runs[1..], phaseOf))
  }

  predicate TooRecent(fp: string, runs: seq<Run>, now: Time, window: Time, phaseOf: PhaseOf) {
    |runs| > 0 &&
    ((Group(runs[0]) == fp && TerminatedWithin(runs[0], now, window, phaseOf)) ||
     TooRecent(fp, runs[1..], now, window, phaseOf))
  }

  predicate TerminatedWithin(r: Run, now: Time, window: Time, phaseOf: PhaseOf) {
    var tt := TerminalTime(r, phaseOf);
    tt.Some? && now - tt.value < window
  }

  predicate HasEmergencyStoppedNameConflict(name: string, fp: string, runs: seq<Run>, phaseOf: PhaseOf) {
    |runs| > 0 &&
    ((runs[0].name == name && Group(runs[0]) == fp && phaseOf(runs[0].conditions) == EmergencyStopped)
     || HasEmergencyStoppedNameConflict(name, fp, runs[1..], phaseOf))
  }

  function RunNames(runs: seq<Run>): set<string> {
    set r | r in runs :: r.name
  }

  // ---------------------------------------------------------------- what the scans decide

  lemma {:induction false} HasActiveRunIff(fp: string, runs: seq<Run>, phaseOf: PhaseOf)
    ensures HasActiveRun(fp, runs, phaseOf) <==> exists r :: r in runs && Group(r) == fp && IsActive(r, phaseOf)
  {
    if |runs| > 0 {
      HasActiveRunIff(fp, runs[1..], phaseOf);
      assert forall r :: r in runs <==> r == runs[0] || r in runs[1..];
    }
  }

  lemma {:induction false} TooRecentIff(fp: string, runs: seq<Run>, now: Time, window: Time, phaseOf: PhaseOf)
    ensures TooRecent(fp, runs, now, window, phaseOf) <==>
            exists r :: r in runs && Group(r) == fp && TerminatedWithin(r, now, window, phaseOf)
  {
    if |runs| > 0 {
      TooRecentIff(fp, runs[1..], now, window, phaseOf);
      assert forall r :: r in runs <==> r == runs[0] || r in runs[1..];
    }
  }

  /** The five phases a run does not leave. */
  lemma ActiveIff(r: Run, phaseOf: PhaseOf)
    ensures IsActive(r, phaseOf) <==> phaseOf(r.conditions) !in {Completed, Failed, Denied, Escalated, EmergencyStopped}
  {
  }

  ghost predicate FirstOfType(conditions: seq<Condition>, i: int) {
    0 <= i < |conditions| && forall j :: 0 <= j < i ==> conditions[j].ctype != conditions[i].ctype
  }

  ghost predicate FirstFalse(conditions: seq<Condition>, i: int) {
    && 0 <= i < |conditions| && conditions[i].status == False
    && forall j :: 0 <= j < i ==> conditions[j].status != False
  }

  /** Condition `i` is the one that ended a run of the given phase: the first one of the type
      that goes with the phase, which for a failed run is the type of its first false condition. */
  ghost predicate EndedBy(conditions: seq<Condition>, phase: Phase, i: int) {
    && FirstOfType(conditions, i)
    && match phase
       case Completed => conditions[i].ctype == "Verified"
       case Failed =>
         && conditions[i].ctype != ""
         && exists k :: FirstFalse(conditions, k) && conditions[k].ctype == conditions[i].ctype
       case Denied => conditions[i].ctype == "Denied"
       case Escalated => conditions[i].ctype == "Escalated"
       case EmergencyStopped => conditions[i].ctype == "EmergencyStopped"
       case Ongoing(_) => false
  }

  /** The scan for the failed type stops at the first false condition, or finds none. */
  lemma {:induction false} FailedTypeIs(conditions: seq<Condition>) returns (k: nat)
    ensures k <= |conditions| && forall j :: 0 <= j < k ==> conditions[j].status != False
    ensures k < |conditions| ==> FirstFalse(conditions, k) && FindFailedConditionType(conditions) == conditions[k].ctype
    ensures k == |conditions| ==> FindFailedConditionType(conditions) == ""
  {
    if conditions == [] || conditions[0].status == False {
      k := 0;
    } else {
      var rest := FailedTypeIs(conditions[1..]);
      k := rest + 1;
      assert forall j :: 1 <= j < |conditions| ==> conditions[j] == conditions[1..][j - 1];
    }
  }

  /** The terminal time of a run is the transition time of the condition that ended it. */
  lemma TerminalTimeIs(r: Run, phaseOf: PhaseOf, t: Time)
    ensures TerminalTime(r, phaseOf) == Some(t) <==>
            exists i :: EndedBy(r.conditions, phaseOf(r.conditions), i) && r.conditions[i].lastTransition == t
  {
    var cs, phase, ctype := r.conditions, phaseOf(r.conditions), TerminalConditionType(r, phaseOf);
    var k := FailedTypeIs(cs);
    assert forall i :: FirstFalse(cs, i) ==> i == k;
    FirstTransitionIs(cs, ctype, t);
    assert forall i :: FirstOfType(cs, i) ==> (EndedBy(cs, phase, i) <==> ctype != "" && cs[i].ctype == ctype);
    if TerminalTime(r, phaseOf) == Some(t) {
      var i :| 0 <= i < |cs| && cs[i].ctype == ctype && cs[i].lastTransition == t &&
               forall j :: 0 <= j < i ==> cs[j].ctype != ctype;
      assert FirstOfType(cs, i);
    }
    forall i | EndedBy(cs, phase, i) && cs[i].lastTransition == t ensures TerminalTime(r, phaseOf) == Some(t) {
      assert FirstOfType(cs, i);
    }
  }

  /** The scan for a type stops at the first condition of that type, or finds none. */
  lemma {:induction false} FirstTransitionAt(conditions: seq<Condition>, ctype: string) returns (k: nat)
    ensures k <= |conditions| && forall j :: 0 <= j < k ==> conditions[j].ctype != ctype
    ensures k < |conditions| ==>
              conditions[k].ctype == ctype && FirstTransition(conditions, ctype) == Some(conditions[k].lastTransition)
    ensures k == |conditions| ==> FirstTransition(conditions, ctype) == None
  {
    if conditions == [] || conditions[0].ctype == ctype {
      k := 0;
    } else {
      var rest := FirstTransitionAt(conditions[1..], ctype);
      k := rest + 1;
      assert forall j :: 1 <= j < |conditions| ==> conditions[j] == conditions[1..][j - 1];
    }
  }

  /** The time found is that of the first condition of the type. */
  lemma FirstTransitionIs(conditions: seq<Condition>, ctype: string, t: Time)
    ensures FirstTransition(conditions, ctype) == Some(t) <==>
            exists i :: 0 <= i < |conditions| && conditions[i].ctype == ctype && conditions[i].lastTransition == t &&
                        forall j :: 0 <= j < i ==> conditions[j].ctype != ctype
  {
    var k := FirstTransitionAt(conditions, ctype);
    hide FirstTransition;
  }
}
