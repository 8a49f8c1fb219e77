/** The run store behind the API server, and the scoped client a target uses. */
module Clients {
  import opened Runs

  /** The runs of the adapter's namespace, by name. */
  type Store = map<string, Run>

  /** What may go wrong with one create request: nothing, an error before the server applied
      it, or an error after the server processed it. */
  datatype Fault = NoFault | FailBefore | FailAfter

  datatype Answer = Created | AlreadyExists | Errored

  function ServeCreate(store: Store, r: Run, fault: Fault): (Store, Answer) {
    if fault.FailBefore? then (store, Errored)
    else
      var answer := if fault.FailAfter? then Errored else if r.name in store then AlreadyExists else Created;
      (if r.name in store then store else store[r.name := r], answer)
  }

  predicate Matches(labels: map<string, string>, selector: map<string, string>) {
    forall k :: k in selector ==> k in labels && labels[k] == selector[k]
  }

  /** The runs a client of the given scope sees; the unscoped client sees unlabelled runs only. */
  predicate InScope(scope: string, r: Run) {
    && LABEL_SOURCE in r.labels && r.labels[LABEL_SOURCE] == SOURCE_VALUE
    && if scope == "" then LABEL_SPOKE_CLUSTER !in r.labels
       else LABEL_SPOKE_CLUSTER in r.labels && r.labels[LABEL_SPOKE_CLUSTER] == scope
  }

  /** A run of another origin, which no client of any scope sees. */
  predicate Foreign(r: Run) {
    !(LABEL_SOURCE in r.labels && r.labels[LABEL_SOURCE] == SOURCE_VALUE)
  }

  ghost predicate WellKeyed(store: Store) {
    forall n :: n in store ==> store[n].name == n
  }

  /** A complete listing of a scope, in any order and without repetition. */
  ghost predicate IsListing(store: Store, scope: string, listed: seq<Run>) {
    && (forall r :: r in listed <==> r.name in store && store[r.name] == r && InScope(scope, r))
    && (forall i, j :: 0 <= i < j < |listed| ==> listed[i].name != listed[j].name)
  }

  /** The run as the client sends it. */
  function Scoped(scope: string, r: Run): Run {
    if scope != "" then r.(labels := r.labels[LABEL_SPOKE_CLUSTER := scope]) else r
  }

  lemma ScopesDisjoint(s1: string, s2: string, r: Run)
    requires InScope(s1, r) && InScope(s2, r)
    ensures s1 == s2
  {
  }

  /** Scopes in terms of the labels: every client asks for the adapter's own runs; a scoped one for
      those that carry its identity, the unscoped one for those that carry none. */
  lemma InScopeIff(scope: string, r: Run)
    ensures InScope(scope, r) <==>
            && "agentic.openshift.io/source" in r.labels && r.labels["agentic.openshift.io/source"] == "alertmanager"
            && (scope == "" ==> "hub.openshift.io/spoke-cluster" !in r.labels)
            && (scope != "" ==> "hub.openshift.io/spoke-cluster" in r.labels &&
                                r.labels["hub.openshift.io/spoke-cluster"] == scope)
    ensures Scoped(scope, r) ==
            if scope == "" then r else r.(labels := r.labels["hub.openshift.io/spoke-cluster" := scope])
  {
  }

  lemma ForeignUnseen(scope: string, r: Run)
    requires Foreign(r)
    ensures !InScope(scope, r)
  {
  }

  class Server {
    var runs: Store

    /** Returns the matching runs in an arbitrary order. */
    method List(selector: map<string, string>) returns (items: seq<Run>)
      requires WellKeyed(runs)
      ensures forall r :: r in items <==> r.name in runs && runs[r.name] == r && Matches(r.labels, selector)
      ensures forall i, j :: 0 <= i < j < |items| ==> items[i].name != items[j].name
    {
      items := [];
      var pending := runs.Keys;
      while pending != {}
        invariant pending <= runs.Keys
        invariant forall r :: r in items <==>
            r.name in runs && r.name !in pending && runs[r.name] == r && Matches(r.labels, selector)
        invariant forall i :: 0 <= i < |items| ==> items[i] in items
        invariant forall i, j :: 0 <= i < j < |items| ==> items[i].name != items[j].name
        decreases |pending|
      {
        var n :| n in pending;
        pending := pending - {n};
        if Matches(runs[n].labels, selector) {
          items := items + [runs[n]];
        }
      }
    }

    method Create(r: Run, fault: Fault) returns (answer: Answer)
      modifies this
      ensures (runs, answer) == ServeCreate(old(runs), r, fault)
    {
      if fault.FailBefore? {
        return Errored;
      }
      answer := if fault.FailAfter? then Errored else if r.name in runs then AlreadyExists else Created;
      if r.name !in runs {
        runs := runs[r.name := r];
      }
    }
  }

  class Client {
    const server: Server
    const target: string

    constructor (server: Server, target: string)
      ensures this.server == server && this.target == target
    {
      this.server := server;
      this.target := target;
    }

    method ListAgenticRuns() returns (runs: seq<Run>)
      requires WellKeyed(server.runs)
      ensures IsListing(server.runs, target, runs)
    {
      var selector := map[LABEL_SOURCE := SOURCE_VALUE];
      if target != "" {
        selector := selector[LABEL_SPOKE_CLUSTER := target];
      }
      var items := server.List(selector);
      if target != "" {
        return items;
      }
      runs := [];
      for i := 0 to |items|
        invariant forall r :: r in runs <==> r in items[..i] && LABEL_SPOKE_CLUSTER !in r.labels
        invariant forall k :: 0 <= k < |runs| ==> runs[k] in runs
        invariant forall j, k :: 0 <= j < k < |runs| ==> runs[j].name != runs[k].name
      {
        assert forall r :: r in items[..i + 1] <==> r in items[..i] || r == items[i];
        assert forall r :: r in items[..i] ==> exists k :: 0 <= k < i && items[k] == r;
        if LABEL_SPOKE_CLUSTER !in items[i].labels {
          runs := runs + [items[i]];
        }
      }
      assert items[..|items|] == items;
    }

    /** Returns the run as sent, with the scope label written into it; `clock` is the creation
        time the server stamps. */
    method CreateAgenticRun(p: Run, clock: Time, fault: Fault) returns (sent: Run, wasCreated: bool, failed: bool)
      modifies server
      ensures sent == Scoped(target, p).(created := clock)
      ensures var (store, answer) := ServeCreate(old(server.runs), sent, fault);
              server.runs == store && wasCreated == answer.Created? && failed == answer.Errored?
    {
      sent := p;
      if target != "" {
        sent := sent.(labels := sent.labels[LABEL_SPOKE_CLUSTER := target]);
      }
      sent := sent.(created := clock);
      var answer := server.Create(sent, fault);
      if answer.AlreadyExists? {
        return sent, false, false;
      }
      return sent, answer.Created?, answer.Errored?;
    }
  }
}
