/** The Compute Agent's side of a Host Sync, and the two sides together. */
module Coordinator {
  import opened Api
  import opened Naming
  import opened Kernel
  import Spec = NetworkSpec
  import opened Placement
  import opened Ownership
  import opened Convergence
  import opened Runs
  import opened Reconciliation
  import HP = HostPorts
  import D = Discovery
  import C = Controller
  import N = Network

  /** How far one attempt to sync comes: no controller is configured, the request cannot be built, something fails
      between sending it and decoding the reply, or a reply is decoded. */
  datatype Attempt = NoController | NotSent | Failed(error: string) | Decoded(resp: C.SyncResponse)

  /** The targets held after some attempts. */
  function TargetsAfter(staticTargets: seq<TargetVM>, attempts: seq<Attempt>): seq<TargetVM> {
    if attempts == [] then staticTargets
    else
      var last := attempts[|attempts| - 1];
      if last.Decoded? then C.FilledTargets(last.resp.targets)
      else TargetsAfter(staticTargets, attempts[..|attempts| - 1])
  }

  ghost predicate LatestDecoded(attempts: seq<Attempt>, i: int) {
    0 <= i < |attempts| && attempts[i].Decoded? && forall j :: i < j < |attempts| ==> !attempts[j].Decoded?
  }

  /** The list of the latest reply that was decoded, with its namespaces filled in; the static one before there was
      any. Attempts that failed since do not matter. */
  ghost predicate HeldAfter(ts: seq<TargetVM>, staticTargets: seq<TargetVM>, attempts: seq<Attempt>) {
    || (ts == staticTargets && forall i :: 0 <= i < |attempts| ==> !attempts[i].Decoded?)
    || (exists i :: LatestDecoded(attempts, i) && C.IsFilled(attempts[i].resp.targets, ts))
  }

  lemma {:induction false} LatestIsHeld(staticTargets: seq<TargetVM>, attempts: seq<Attempt>)
    ensures HeldAfter(TargetsAfter(staticTargets, attempts), staticTargets, attempts)
    decreases attempts
  {
    if attempts != [] {
      var n := |attempts| - 1;
      var most := attempts[..n];
      LatestIsHeld(staticTargets, most);
      if attempts[n].Decoded? {
        C.FilledTargetsAre(attempts[n].resp.targets);
      }
      assert forall i :: 0 <= i < n ==> attempts[i] == most[i];
      if attempts[n].Decoded? {
        assert LatestDecoded(attempts, n);
      } else {
        assert forall i :: LatestDecoded(most, i) ==> LatestDecoded(attempts, i);
      }
    }
  }

  lemma OneMoreAttempt(staticTargets: seq<TargetVM>, attempts: seq<Attempt>, a: Attempt)
    ensures TargetsAfter(staticTargets, attempts + [a])
      == if a.Decoded? then C.FilledTargets(a.resp.targets) else TargetsAfter(staticTargets, attempts)
  {
    assert (attempts + [a])[..|attempts|] == attempts;
  }

  class Coordinator {
    const networkManager: N.NetworkManager?
    var targets: seq<TargetVM>
    var lastSync: Option<nat>
    var lastError: Option<string>
    ghost const staticTargets: seq<TargetVM>
    ghost var attempts: seq<Attempt>

    /** The targets are those that the attempts so far make them. */
    ghost predicate Valid()
      reads this
    {
      targets == TargetsAfter(staticTargets, attempts)
    }

    /** The static targets are held until a sync replaces them. */
    constructor (networkManager: N.NetworkManager?, staticTargets: seq<TargetVM>)
      ensures Valid() && this.staticTargets == staticTargets && attempts == []
      ensures this.networkManager == networkManager && lastSync == None && lastError == None
    {
      this.networkManager := networkManager;
      this.staticTargets := staticTargets;
      targets := staticTargets;
      lastSync, lastError := None, None;
      attempts := [];
    }

    /** A reconcile error is only a warning: the targets are taken over all the same. reconciled says whether there
        was none, order how the stale endpoints went. */
    method SyncOnce(attempt: Attempt, now: nat) returns (ok: bool, ghost reconciled: bool, ghost order: seq<string>)
      requires Valid() && (networkManager != null ==> networkManager.Wired())
      modifies this
      modifies if networkManager == null then {} else {networkManager, networkManager.runner}
      ensures Valid() && attempts == old(attempts) + [attempt]
      ensures ok <==> attempt.NoController? || attempt.Decoded?
      ensures if attempt.Decoded? then C.IsFilled(attempt.resp.targets, targets) else targets == old(targets)
      ensures lastSync == if ok then Some(now) else old(lastSync)
      ensures lastError ==
        if ok then None else if attempt.Failed? then Some(attempt.error) else old(lastError)
      ensures networkManager != null && attempt.Decoded? ==>
        var op := Sync(attempt.resp.endpoints, order, old(networkManager.runner.sys.faults));
        && networkManager.Agent() == After(old(networkManager.Agent()), networkManager.bridge, op)
        && reconciled == Call(old(networkManager.Agent()), networkManager.bridge, op).ok
      ensures networkManager != null && !attempt.Decoded? ==>
        unchanged(networkManager) && unchanged(networkManager.runner)
    {
      ok, reconciled, order := false, false, [];
      OneMoreAttempt(staticTargets, attempts, attempt);
      attempts := attempts + [attempt];
      match attempt
      case NoController =>
        lastSync, lastError := Some(now), None;
        ok := true;
      case NotSent =>
      case Failed(error) => RecordSyncError(error);
      case Decoded(resp) =>
        var filled := C.FillNetNS(resp.targets);
        if networkManager != null {
          reconciled, order := networkManager.ReconcileEndpoints(resp.endpoints);
        }
        targets := filled;
        lastSync, lastError := Some(now), None;
        ok := true;
    }

    method RecordSyncError(error: string)
      modifies this`lastError
      ensures lastError == Some(error) && targets == old(targets) && lastSync == old(lastSync)
    {
      lastError := Some(error);
    }

    /** What a scrape is given: the list of the latest decoded reply, or the static one. */
    method GetTargets() returns (r: seq<TargetVM>)
      requires Valid()
      ensures HeldAfter(r, staticTargets, attempts)
    {
      LatestIsHeld(staticTargets, attempts);
      r := targets;
    }
  }

  /** A target's namespace is there, and in it a host interface that is up. */
  ghost predicate CanBeScraped(w: World, t: TargetVM) {
    && t.netNS in w.netns
    && exists k :: k in w.links && k.ns == t.netNS && w.links[k].up && w.links[k].peer.Some?
  }

  /** What discovery hands over: NetNS is empty or derived from the target's own network. */
  predicate NamedByNetwork(t: TargetVM) { t.netNS == "" || t.netNS == NetNSName(Short(t.networkID)) }

  lemma {:induction false} NonEmptyKeepsPlace(ids: seq<string>)
    requires forall id :: id in ids ==> id != ""
    ensures HP.NonEmpty(ids) == ids
  {
    if ids != [] {
      assert ids[0] in ids;
      forall id | id in ids[1..] ensures id != "" {
        assert id in ids;
      }
      NonEmptyKeepsPlace(ids[1..]);
      assert ids == [ids[0]] + ids[1..];
    }
  }

  /** The endpoints of a sync name what the naming rule says. */
  lemma EndpointsAreListed(
    n: HP.Neutron, host: string, ids: seq<string>, format: HP.NeutronPort -> string, names: set<Names>)
    requires forall id :: id in ids ==> id != "" && NamesFor(Short(id)) in names
    requires HP.EnsureHostPorts(n, host, ids, format).ok
    ensures var eps := HP.EnsureHostPorts(n, host, ids, format).endpoints;
      && Lists(eps, names) && |eps| == |ids|
      && forall i :: 0 <= i < |eps| ==> eps[i].vethName != "" && NamesOf(eps[i]) == NamesFor(Short(ids[i]))
  {
    HP.EnsureHostPortsBacked(n, host, ids, format);
    NonEmptyKeepsPlace(ids);
    var eps := HP.EnsureHostPorts(n, host, ids, format).endpoints;
    forall i | 0 <= i < |eps|
      ensures eps[i].vethName != "" && NamesOf(eps[i]) == NamesFor(Short(ids[i])) && EffectiveNetNS(eps[i]) != ""
    {
      assert HP.Backed(eps[i], ids[i], host, HP.EnsureHostPorts(n, host, ids, format).neutron.ports, format);
      assert |eps[i].netNS| >= 5;
    }
  }

  /** Host Sync, end to end: discovery's targets, the network set, the sorted list, the host ports, the filled
      targets and a reconcile that returned no error leave every target with a network id in a namespace that
      exists and holds a host interface that is up. The reconcile may have met any faults that it tolerated. */
  lemma HostSyncEndToEnd(
    discovered: seq<TargetVM>, ids: seq<string>, neutron: HP.Neutron, host: string,
    format: HP.NeutronPort -> string, g: Agent, bridge: string, op: Op, names: set<Names>,
    sent: seq<TargetVM>, held: seq<TargetVM>)
    requires C.IsFilled(discovered, sent) && C.IsFilled(sent, held)
    requires forall t :: t in discovered ==> NamedByNetwork(t)
    requires forall id :: id in ids <==> id in C.NetworkSet(discovered)
    requires HP.EnsureHostPorts(neutron, host, ids, format).ok
    requires Compatible(names) && AgentInv(g, names, bridge)
    requires forall id :: id in ids ==> NamesFor(Short(id)) in names
    requires op.Sync? && op.eps == HP.EnsureHostPorts(neutron, host, ids, format).endpoints
    requires Call(g, bridge, op).ok
    ensures forall i :: 0 <= i < |held| && held[i].networkID != "" ==>
      CanBeScraped(After(g, bridge, op).world, held[i])
  {
    forall id | id in ids ensures id != "" {
      C.NetworkSetHolds(discovered, id);
    }
    EndpointsAreListed(neutron, host, ids, format, names);
    SyncReachesGoals(g, bridge, op, names);
    EveryCommandKeeps(g, bridge, op, Issued(g, bridge, op), names, names);
    var h := After(g, bridge, op);
    forall i | 0 <= i < |held| && held[i].networkID != ""
      ensures CanBeScraped(h.world, held[i])
    {
      var id := discovered[i].networkID;
      NamesSpelledOut(id, "");
      assert discovered[i] in discovered && held[i].netNS == NetNSName(Short(id));
      C.NetworkSetHolds(discovered, id);
      assert id in ids;
      ListedIsReachable(h, op.eps, ids, id, held[i], names, bridge);
    }
  }

  lemma ListedIsReachable(
    h: Agent, eps: seq<HostNetworkEndpoint>, ids: seq<string>, id: string, t: TargetVM, names: set<Names>,
    bridge: string)
    requires |eps| == |ids| && forall i :: 0 <= i < |eps| ==>
      eps[i].vethName != "" && NamesOf(eps[i]) == NamesFor(Short(ids[i])) && NamesOf(eps[i]) in names
    requires Compatible(names) && AgentInv(h, names, bridge) && GoalsMet(h.world, h.active, bridge)
    requires h.active == Keyed(eps, map[]) && id in ids && t.netNS == NetNSName(Short(id))
    ensures CanBeScraped(h.world, t)
  {
    var j :| 0 <= j < |ids| && ids[j] == id;
    ListedAreKeyed(eps, map[]);
    assert NamesOf(eps[j]) in ListedNames(eps);
    TrackedIsReachable(h, NamesFor(Short(id)), t, names, bridge);
  }

  lemma TrackedIsReachable(h: Agent, a: Names, t: TargetVM, names: set<Names>, bridge: string)
    requires Compatible(names) && AgentInv(h, names, bridge) && GoalsMet(h.world, h.active, bridge)
    requires a in names && a.host in h.active && t.netNS == a.ns
    ensures CanBeScraped(h.world, t)
  {
    var ep := h.active[a.host];
    assert NamesOf(ep) in names && NamesOf(ep).host == a.host;
    assert NamesOf(ep) == a || Apart(NamesOf(ep), a);
    assert Goal(h.world, ep, bridge);
    var v := ViewOf(h.world, a);
    assert v.ns == Some(true) && v.inner.Some? && v.inner.value.up;
    assert Spec.InnerKey(a) in h.world.links;
  }

  lemma {:induction false} DiscoveryNames(servers: seq<D.Server>, isV4: string -> bool)
    ensures forall t :: t in D.Discovered(servers, isV4) ==> NamedByNetwork(t)
    decreases servers
  {
    if servers != [] {
      var n := |servers| - 1;
      DiscoveryNames(servers[..n], isV4);
      D.TargetIsFaithful(servers[n], isV4);
    }
  }

  /** From the servers to the namespaces: on a host that was clean when the first agent came, after any run of calls
      under any faults, a sync with what discovery and the host ports give that returns no error leaves every target
      that has a network in a namespace that can be scraped. The only condition is on the short network ids ever
      used on the host, and ControlNamesAreCompatibleIff shows that it is exact for the names. */
  lemma HostSyncOfDiscovery(
    servers: seq<D.Server>, isV4: string -> bool, ids: seq<string>, neutron: HP.Neutron, host: string,
    format: HP.NeutronPort -> string, start: Agent, bridge: string, ops: seq<Op>, op: Op, shorts: set<string>,
    sent: seq<TargetVM>, held: seq<TargetVM>)
    requires C.IsFilled(D.Discovered(servers, isV4), sent) && C.IsFilled(sent, held)
    requires ShortsAgree(shorts) && forall id :: id in ids ==> Short(id) in shorts
    requires forall id :: id in ids <==> id in C.NetworkSet(D.Discovered(servers, isV4))
    requires HP.EnsureHostPorts(neutron, host, ids, format).ok
    requires Untouched(start, UniverseOf(shorts)) && OpsList(ops, UniverseOf(shorts))
    requires op.Sync? && op.eps == HP.EnsureHostPorts(neutron, host, ids, format).endpoints
    requires Call(Run(start, bridge, ops), bridge, op).ok
    ensures forall i :: 0 <= i < |held| && held[i].networkID != "" ==>
      CanBeScraped(After(Run(start, bridge, ops), bridge, op).world, held[i])
    ensures held == D.Discovered(servers, isV4)
  {
    var names := UniverseOf(shorts);
    ControlNamesAreCompatibleIff(shorts);
    DiscoveryNames(servers, isV4);
    UntouchedIsInv(start, names, bridge);
    RunKeeps(start, bridge, ops, names);
    HostSyncEndToEnd(
      D.Discovered(servers, isV4), ids, neutron, host, format, Run(start, bridge, ops), bridge, op, names, sent, held);
    DiscoveredAreFilled(servers, isV4, sent, held);
  }

  /** Discovery has named the namespaces already, so neither side changes a target: the agent holds what was found. */
  lemma DiscoveredAreFilled(
    servers: seq<D.Server>, isV4: string -> bool, sent: seq<TargetVM>, held: seq<TargetVM>)
    requires C.IsFilled(D.Discovered(servers, isV4), sent) && C.IsFilled(sent, held)
    ensures held == sent == D.Discovered(servers, isV4)
  {
    var found := D.Discovered(servers, isV4);
    D.DiscoveredAreNamed(servers, isV4);
    forall i | 0 <= i < |found|
      ensures held[i] == sent[i] == found[i]
    {
      assert found[i] in found;
    }
  }
}
