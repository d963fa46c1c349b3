/** The Control Service's side of a Host Sync: EnsureHostPorts as a loop, and HandleSync. */
module Controller {
  import opened Api
  import opened Naming
  import opened Order
  import opened HostPorts

  class GophercloudClient {
    var neutron: Neutron

    constructor (neutron: Neutron)
      ensures this.neutron == neutron
    {
      this.neutron := neutron;
    }

    method FindPortByNameAndHost(portName: string) returns (port: Option<NeutronPort>, ok: bool)
      modifies this
      ensures var l := ListPorts(old(neutron), portName);
        neutron == l.neutron && ok == l.ports.Some? && port == if ok then Find(l.ports.value, portName) else None
    {
      var l := ListPorts(neutron, portName);
      neutron := l.neutron;
      if l.ports.None? {
        return None, false;
      }
      var all := l.ports.value;
      for i := 0 to |all|
        invariant neutron == l.neutron && Find(all[i..], portName) == Find(all, portName)
      {
        assert all[i..][1..] == all[i + 1..];
        if all[i].name == portName {
          return Some(all[i]), true;
        }
      }
      return None, true;
    }

    /** The search and, if need be, the creation for one network. */
    method EnsureHostPort(computeHost: string, netID: string) returns (port: Option<NeutronPort>)
      modifies this
      ensures Creation(neutron, port) == EnsurePort(old(neutron), computeHost, netID)
    {
      var portName := PortName(computeHost, Short(netID));
      FindNamed(neutron.ports, portName);
      var existing, found := FindPortByNameAndHost(portName);
      if !found {
        return None;
      }
      if existing.Some? {
        return existing;
      }
      var c := CreatePort(neutron, portName, netID, computeHost);
      neutron := c.neutron;
      return c.port;
    }

    method EnsureHostPorts(computeHost: string, networkIDs: seq<string>, format: NeutronPort -> string)
      returns (endpoints: seq<HostNetworkEndpoint>, ok: bool)
      modifies this
      ensures Ensured(neutron, endpoints, ok)
           == HostPorts.EnsureHostPorts(old(neutron), computeHost, networkIDs, format)
    {
      endpoints := [];
      ghost var goal := HostPorts.EnsureHostPorts(neutron, computeHost, networkIDs, format);
      FailureHasNoEndpoints(neutron, computeHost, networkIDs, format);
      assert networkIDs[0..] == networkIDs;
      for i := 0 to |networkIDs|
        invariant Pending(neutron, computeHost, networkIDs[i..], format, endpoints) == goal
      {
        var netID := networkIDs[i];
        assert networkIDs[i..][0] == netID && networkIDs[i..][1..] == networkIDs[i + 1..];
        PendingStep(neutron, computeHost, networkIDs[i..], format, endpoints);
        if netID == "" {
          continue;
        }
        var made := EnsureHostPort(computeHost, netID);
        if made.None? {
          endpoints := [];
          return endpoints, false;
        }
        var short, port := Short(netID), made.value;
        endpoints := endpoints + [
          HostNetworkEndpoint(netID, port.id, port.mac, format(port), HostIfName(short), NetNSName(short))];
      }
      assert endpoints + [] == endpoints;
      return endpoints, true;
    }
  }

  // --- HandleSync

  /** Every network that some target is on. */
  function NetworkSet(targets: seq<TargetVM>): set<string> {
    if targets == [] then {}
    else
      var t := targets[|targets| - 1];
      NetworkSet(targets[..|targets| - 1]) + (set n | n in [t.networkID] + t.networkIDs && n != "")
  }

  lemma {:induction false} NetworkSetHolds(targets: seq<TargetVM>, n: string)
    ensures n in NetworkSet(targets)
      <==> n != "" && exists t :: t in targets && (n == t.networkID || n in t.networkIDs)
  {
    if targets != [] {
      var k := |targets| - 1;
      NetworkSetHolds(targets[..k], n);
      assert targets == targets[..k] + [targets[k]];
      assert forall t :: t in targets <==> t in targets[..k] || t == targets[k];
    }
  }

  function Itself(s: string): string { s }

  function FilledTarget(t: TargetVM): TargetVM { t.(netNS := DerivedNetNS(t.netNS, t.networkID)) }

  function FilledTargets(ts: seq<TargetVM>): seq<TargetVM> {
    seq(|ts|, i requires 0 <= i < |ts| => FilledTarget(ts[i]))
  }

  /** The same targets in the same order, but for the namespaces that were not given. */
  predicate IsFilled(given: seq<TargetVM>, filled: seq<TargetVM>) {
    && |filled| == |given|
    && forall i :: 0 <= i < |given| ==>
         && filled[i].(netNS := given[i].netNS) == given[i]
         && IsNamespaceFor(filled[i].netNS, given[i].netNS, given[i].networkID)
  }

  lemma FilledTargetsAre(given: seq<TargetVM>)
    ensures IsFilled(given, FilledTargets(given))
  {
    forall i | 0 <= i < |given|
      ensures IsNamespaceFor(FilledTargets(given)[i].netNS, given[i].netNS, given[i].networkID)
    {
      DerivedIsNamespaceFor(given[i].netNS, given[i].networkID);
    }
  }

  method CollectNetworks(targets: seq<TargetVM>) returns (networkSet: set<string>)
    ensures networkSet == NetworkSet(targets)
  {
    networkSet := {};
    for i := 0 to |targets|
      invariant networkSet == NetworkSet(targets[..i])
    {
      var t := targets[i];
      assert targets[..i + 1][..i] == targets[..i];
      ghost var before := networkSet;
      if t.networkID != "" {
        networkSet := networkSet + {t.networkID};
      }
      for j := 0 to |t.networkIDs|
        invariant networkSet == before + (set n | n in [t.networkID] + t.networkIDs[..j] && n != "")
      {
        assert [t.networkID] + t.networkIDs[..j + 1] == [t.networkID] + t.networkIDs[..j] + [t.networkIDs[j]];
        if t.networkIDs[j] != "" {
          networkSet := networkSet + {t.networkIDs[j]};
        }
      }
      assert t.networkIDs[..|t.networkIDs|] == t.networkIDs;
    }
    assert targets[..|targets|] == targets;
  }

  /** The set as a strictly sorted list, in whatever order the map was met. */
  method SortedList(networkSet: set<string>) returns (networkList: seq<string>)
    ensures StrictlySorted(networkList, Itself) && forall n :: n in networkList <==> n in networkSet
  {
    var todo := networkSet;
    networkList := [];
    while todo != {}
      invariant todo <= networkSet && Enumerates(networkList, networkSet - todo)
      decreases todo
    {
      var n :| n in todo;
      EnumeratesOneMore(networkList, networkSet - todo, n);
      assert networkSet - (todo - {n}) == networkSet - todo + {n};
      networkList := networkList + [n];
      todo := todo - {n};
    }
    assert networkSet - todo == networkSet;
    SortSorts(networkList, Itself);
    SameElements(Sort(networkList, Itself), networkList);
    networkList := Sort(networkList, Itself);
  }

  method FillNetNS(targets: seq<TargetVM>) returns (filled: seq<TargetVM>)
    ensures filled == FilledTargets(targets) && IsFilled(targets, filled)
  {
    FilledTargetsAre(targets);
    filled := targets;
    for i := 0 to |targets|
      invariant |filled| == |targets|
      invariant forall j :: 0 <= j < |targets| ==> filled[j] == if j < i then FilledTarget(targets[j]) else targets[j]
    {
      if filled[i].netNS == "" && filled[i].networkID != "" {
        var shortID := filled[i].networkID;
        if |shortID| > 8 {
          shortID := shortID[..8];
        }
        filled := filled[i := filled[i].(netNS := NetNSName(shortID))];
      }
    }
  }

  /** What the Control Service answers, once the targets are discovered. */
  datatype SyncResponse = SyncResponse(endpoints: seq<HostNetworkEndpoint>, targets: seq<TargetVM>)

  method HandleSync(
    client: GophercloudClient, computeHost: string, targets: seq<TargetVM>, format: NeutronPort -> string)
    returns (resp: Option<SyncResponse>, ghost networkList: seq<string>)
    modifies client
    ensures StrictlySorted(networkList, Itself) && forall n :: n in networkList <==> n in NetworkSet(targets)
    ensures var r := HostPorts.EnsureHostPorts(old(client.neutron), computeHost, networkList, format);
      && client.neutron == r.neutron
      && resp == (if r.ok then Some(SyncResponse(r.endpoints, FilledTargets(targets))) else None)
      && (resp.Some? ==> IsFilled(targets, resp.value.targets))
  {
    var networkSet := CollectNetworks(targets);
    var list := SortedList(networkSet);
    networkList := list;
    var endpoints, ok := client.EnsureHostPorts(computeHost, list, format);
    if !ok {
      return None, networkList;
    }
    var filled := FillNetNS(targets);
    return Some(SyncResponse(endpoints, filled)), networkList;
  }
}
