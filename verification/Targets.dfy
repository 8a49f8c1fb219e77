/** The target registry and the controller that keeps it in line with the cluster. */
module Targets {
  import opened Text
  import opened Names
  import opened Decisions
  import opened Protocol

  type Spokes = map<string, Target>

  ghost predicate Keyed(spokes: Spokes) {
    forall n :: n in spokes ==> spokes[n].name == n
  }

  /** The spokes in some order, each once. */
  ghost predicate Enumerates(ts: seq<Target>, spokes: Spokes) {
    && (forall t :: t in ts <==> t.name in spokes && spokes[t.name] == t)
    && (forall i, j :: 0 <= i < j < |ts| ==> ts[i].name != ts[j].name)
  }

  /** A snapshot is the local targets followed by the spokes in map order. */
  ghost predicate IsSnapshot(ts: seq<Target>, local: seq<Target>, spokes: Spokes) {
    |local| <= |ts| && ts[..|local|] == local && Enumerates(ts[|local|..], spokes)
  }

  /** The map built from a list: of targets with one name the last one stays. */
  function ByName(ts: seq<Target>): Spokes {
    if ts == [] then map[] else ByName(ts[..|ts| - 1])[ts[|ts| - 1].name := ts[|ts| - 1]]
  }

  /** Of targets with one name the map holds the last, which is target `k` unless there is none. */
  lemma {:induction false} ByNameIs(ts: seq<Target>, name: string) returns (k: int)
    ensures -1 <= k < |ts| && forall j :: k < j < |ts| ==> ts[j].name != name
    ensures k >= 0 ==> ts[k].name == name && name in ByName(ts) && ByName(ts)[name] == ts[k]
    ensures k == -1 ==> name !in ByName(ts)
  {
    k := |ts| - 1;
    if ts != [] && ts[k].name != name { k := ByNameIs(ts[..k], name); }
  }

  class Registry {
    var local: array<Target>
    var spokes: Spokes

    /** Copies the local targets, so the caller's slice stays the caller's. */
    constructor (local: array<Target>, spokes: array<Target>)
      ensures fresh(this.local) && this.local[..] == local[..]
      ensures this.spokes == ByName(spokes[..])
      ensures Keyed(this.spokes)
    {
      this.local := new Target[local.Length](i requires 0 <= i < local.Length reads local => local[i]);
      this.spokes := map[];
      new;
      var k := 0;
      while k < spokes.Length
        invariant 0 <= k <= spokes.Length
        invariant this.spokes == ByName(spokes[..k]) && Keyed(this.spokes)
        invariant fresh(this.local) && this.local[..] == local[..]
      {
        assert spokes[..k + 1][..k] == spokes[..k];
        this.spokes := this.spokes[spokes[k].name := spokes[k]];
        k := k + 1;
      }
      assert spokes[..k] == spokes[..];
    }

    method SetSpoke(target: Target) returns (added: bool)
      requires Keyed(spokes)
      modifies this`spokes
      ensures spokes == old(spokes)[target.name := target] && Keyed(spokes)
      ensures added <==> target.name !in old(spokes)
    {
      added := target.name !in spokes;
      spokes := spokes[target.name := target];
    }

    method RemoveSpoke(name: string) returns (removed: bool)
      requires Keyed(spokes)
      modifies this`spokes
      ensures spokes == old(spokes) - {name} && Keyed(spokes)
      ensures removed <==> name in old(spokes)
    {
      removed := name in spokes;
      spokes := spokes - {name};
    }

    /** A point-in-time copy in an array of its own. */
    method Targets() returns (targets: array<Target>)
      requires Keyed(spokes)
      ensures fresh(targets) && IsSnapshot(targets[..], local[..], spokes)
    {
      var rest: seq<Target> := [];
      var pending := spokes.Keys;
      while pending != {}
        invariant pending <= spokes.Keys
        invariant forall t :: t in rest <==> t.name in spokes && t.name !in pending && spokes[t.name] == t
        invariant forall i :: 0 <= i < |rest| ==> rest[i] in rest
        invariant forall i, j :: 0 <= i < j < |rest| ==> rest[i].name != rest[j].name
        decreases |pending|
      {
        var n :| n in pending;
        pending := pending - {n};
        rest := rest + [spokes[n]];
      }
      var all := local[..] + rest;
      targets := new Target[|all|](i requires 0 <= i < |all| => all[i]);
      assert targets[..] == all;
      assert all[..|local[..]|] == local[..] && all[|local[..]|..] == rest;
    }
  }

  // ---------------------------------------------------------------- the controller

  /** What one reconcile call sees of a SpokeCluster: its credential label and whether a target
      can be built from its Secret. */
  datatype Sight = NotFound | GetFailed | Found(credential: string, built: Option<Target>)

  /** The target a cluster should have, going by a sight that is not an error. */
  function Wanted(seen: Sight): Option<Target>
    requires !seen.GetFailed?
  {
    if seen.Found? && seen.credential != "" then seen.built else None
  }

  /** A target built from a SpokeCluster bears its name. */
  predicate Honest(name: string, seen: Sight) {
    seen.Found? && seen.built.Some? ==> seen.built.value.name == name
  }

  function AfterCall(spokes: Spokes, name: string, seen: Sight): Spokes {
    if seen.GetFailed? then spokes
    else
      match Wanted(seen)
      case None => spokes - {name}
      case Some(t) => spokes[name := t]
  }

  class Reconciler {
    const targets: Registry

    constructor (targets: Registry)
      ensures this.targets == targets
    {
      this.targets := targets;
    }

    method Reconcile(name: string, seen: Sight) returns (failed: bool)
      requires Keyed(targets.spokes) && Honest(name, seen)
      modifies targets`spokes
      ensures failed <==> seen.GetFailed?
      ensures failed ==> targets.spokes == old(targets.spokes)
      ensures !failed ==>
                && (name in targets.spokes <==> seen.Found? && seen.credential != "" && seen.built.Some?)
                && (name in targets.spokes ==> targets.spokes[name] == seen.built.value)
      ensures forall n :: n != name ==>
                && (n in targets.spokes <==> n in old(targets.spokes))
                && (n in targets.spokes ==> targets.spokes[n] == old(targets.spokes)[n])
      ensures targets.spokes == AfterCall(old(targets.spokes), name, seen) && Keyed(targets.spokes)
    {
      match seen {
        case NotFound =>
          var removed := targets.RemoveSpoke(name);
          return false;
        case GetFailed =>
          return true;
        case Found(credential, built) =>
          if credential == "" {
            var removed := targets.RemoveSpoke(name);
            return false;
          }
          if built.None? {
            var removed := targets.RemoveSpoke(name);
            return false;
          }
          var added := targets.SetSpoke(built.value);
          return false;
      }
    }
  }

  // ---------------------------------------------------------------- histories of calls

  datatype Call = Call(name: string, seen: Sight)

  function AfterCalls(initial: Spokes, calls: seq<Call>): Spokes {
    if calls == [] then initial
    else
      var last := calls[|calls| - 1];
      AfterCall(AfterCalls(initial, calls[..|calls| - 1]), last.name, last.seen)
  }

  /** Call `i` is the last one for the name that did not fail. */
  ghost predicate LastCompleted(calls: seq<Call>, name: string, i: int) {
    && 0 <= i < |calls| && calls[i].name == name && !calls[i].seen.GetFailed?
    && forall j :: i < j < |calls| && calls[j].name == name ==> calls[j].seen.GetFailed?
  }

  /** After any calls, a spoke is present exactly when its last completed reconcile found the
      object, the label and a buildable target, and then with that target; a name that was never
      reconciled keeps its status from the initial load. */
  lemma {:induction false} RegistryConverges(initial: Spokes, calls: seq<Call>, name: string)
    ensures var after := AfterCalls(initial, calls);
            forall i :: LastCompleted(calls, name, i) ==>
              var seen := calls[i].seen;
              && (name in after <==> seen.Found? && seen.credential != "" && seen.built.Some?)
              && (name in after ==> after[name] == seen.built.value)
    ensures var after := AfterCalls(initial, calls);
            (forall i :: !LastCompleted(calls, name, i)) ==>
              (name in after <==> name in initial) && (name in after ==> after[name] == initial[name])
  {
    if calls != [] {
      var n := |calls| - 1;
      var init, last := calls[..n], calls[n];
      RegistryConverges(initial, init, name);
      if last.name == name && !last.seen.GetFailed? {
        assert LastCompleted(calls, name, n);
      } else {
        assert forall i :: LastCompleted(calls, name, i) <==> LastCompleted(init, name, i);
      }
    }
  }

  /** Calls move the registry as described, and a snapshot handed out before stays as it was. */
  method ReconcileAfterSnapshot(r: Reconciler, calls: seq<Call>) returns (snapshot: array<Target>, before: seq<Target>)
    requires Keyed(r.targets.spokes)
    requires forall i :: 0 <= i < |calls| ==> Honest(calls[i].name, calls[i].seen)
    modifies r.targets`spokes
    ensures IsSnapshot(before, r.targets.local[..], old(r.targets.spokes))
    ensures snapshot[..] == before
    ensures r.targets.spokes == AfterCalls(old(r.targets.spokes), calls)
  {
    snapshot := r.targets.Targets();
    before := snapshot[..];
    for k := 0 to |calls|
      invariant Keyed(r.targets.spokes)
      invariant r.targets.spokes == AfterCalls(old(r.targets.spokes), calls[..k])
      invariant snapshot[..] == before
    {
      assert calls[..k + 1][..k] == calls[..k];
      var failed := r.Reconcile(calls[k].name, calls[k].seen);
    }
    assert calls[..|calls|] == calls;
  }

  // ---------------------------------------------------------------- distinct targets

  /** A spoke target: its identity is also the scope of its run client. */
  predicate IsSpoke(t: Target, sha: string -> ShaHex) {
    t.id == SpokeTargetID(t.name, sha) && t.scope == t.id
  }

  /** The hub's own target: unscoped alone, scoped "local" beside spokes. */
  predicate IsHub(t: Target) {
    t.name == "local" && t.id == "" && (t.scope == "" || t.scope == "local")
  }

  ghost predicate FromHub(ts: seq<Target>, hub: seq<Target>, spokes: Spokes, sha: string -> ShaHex) {
    && |hub| <= 1 && (forall t :: t in hub ==> IsHub(t))
    && Keyed(spokes) && (forall n :: n in spokes ==> IsSpoke(spokes[n], sha))
    && IsSnapshot(ts, hub, spokes)
  }

  ghost predicate DistinctIds(spokes: Spokes, sha: string -> ShaHex) {
    forall m, n :: m in spokes && n in spokes && m != n ==> SpokeTargetID(m, sha) != SpokeTargetID(n, sha)
  }

  /** When a snapshot has the distinct names and scopes the reconcile protocol relies on: exactly
      when no spoke takes the hub target's name and no two spokes share an identity. */
  lemma SnapshotDistinct(ts: seq<Target>, hub: seq<Target>, spokes: Spokes, sha: string -> ShaHex)
    requires FromHub(ts, hub, spokes, sha)
    ensures Distinct(ts) <==> (hub != [] ==> "local" !in spokes) && DistinctIds(spokes, sha)
  {
    if Distinct(ts) {
      DistinctMeansIds(ts, hub, spokes, sha);
      DistinctMeansNoLocal(ts, hub, spokes, sha);
    }
    if (hub != [] ==> "local" !in spokes) && DistinctIds(spokes, sha) {
      assert Distinct(ts) by { IdsMeanDistinct(ts, hub, spokes, sha); }
    }
  }

  lemma DistinctMeansIds(ts: seq<Target>, hub: seq<Target>, spokes: Spokes, sha: string -> ShaHex)
    requires FromHub(ts, hub, spokes, sha) && Distinct(ts)
    ensures DistinctIds(spokes, sha)
  {
    hide SpokeTargetID;
    forall m, n | m in spokes && n in spokes && m != n ensures SpokeTargetID(m, sha) != SpokeTargetID(n, sha) {
      var i := SpokePosition(ts, hub, spokes, m);
      var j := SpokePosition(ts, hub, spokes, n);
    }
  }

  lemma DistinctMeansNoLocal(ts: seq<Target>, hub: seq<Target>, spokes: Spokes, sha: string -> ShaHex)
    requires FromHub(ts, hub, spokes, sha) && Distinct(ts)
    ensures hub != [] ==> "local" !in spokes
  {
    if hub != [] && "local" in spokes {
      HubFirst(ts, hub, spokes, sha);
      var j := SpokePosition(ts, hub, spokes, "local");
      assert false;
    }
  }

  lemma HubFirst(ts: seq<Target>, hub: seq<Target>, spokes: Spokes, sha: string -> ShaHex)
    requires FromHub(ts, hub, spokes, sha) && hub != []
    ensures ts[0].name == "local"
  {
    assert ts[0] == ts[..|hub|][0] && hub[0] in hub;
  }

  lemma SpokePosition(ts: seq<Target>, hub: seq<Target>, spokes: Spokes, n: string) returns (j: nat)
    requires IsSnapshot(ts, hub, spokes) && Keyed(spokes) && n in spokes
    ensures |hub| <= j < |ts| && ts[j] == spokes[n]
  {
    var i := Position(ts[|hub|..], spokes, n);
    j := |hub| + i;
    assert ts[j] == ts[|hub|..][i];
  }

  lemma IdsMeanDistinct(ts: seq<Target>, hub: seq<Target>, spokes: Spokes, sha: string -> ShaHex)
    requires FromHub(ts, hub, spokes, sha)
    requires (hub != [] ==> "local" !in spokes) && DistinctIds(spokes, sha)
    ensures Distinct(ts)
  {
    forall i, j | 0 <= i < j < |ts| ensures ts[i].name != ts[j].name && ts[i].scope != ts[j].scope {
      SpokeAt(ts, hub, spokes, sha, j);
      if i < |hub| {
        assert ts[i] == ts[..|hub|][i] && hub[i] in hub;
      } else {
        SpokeAt(ts, hub, spokes, sha, i);
        assert ts[i] == ts[|hub|..][i - |hub|] && ts[j] == ts[|hub|..][j - |hub|];
      }
    }
  }

  lemma SpokeAt(ts: seq<Target>, hub: seq<Target>, spokes: Spokes, sha: string -> ShaHex, j: nat)
    requires FromHub(ts, hub, spokes, sha) && |hub| <= j < |ts|
    ensures var t := ts[j];
            && t.name in spokes && spokes[t.name] == t && t.scope == SpokeTargetID(t.name, sha)
            && t.scope != "" && t.scope != "local"
  {
    assert ts[|hub|..][j - |hub|] == ts[j];
    assert ts[j] in ts[|hub|..];
    assert IsSpoke(spokes[ts[j].name], sha);
  }

  lemma Position(ts: seq<Target>, spokes: Spokes, n: string) returns (i: nat)
    requires Enumerates(ts, spokes) && Keyed(spokes) && n in spokes
    ensures i < |ts| && ts[i] == spokes[n]
  {
    assert spokes[n] in ts;
    i :| 0 <= i < |ts| && ts[i] == spokes[n];
  }
}
