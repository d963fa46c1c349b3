/** The discovery loop of pkg/openstack as a filter-map over the servers. */
module Discovery {
  import opened Api
  import opened Naming

  datatype ServerPort = ServerPort(networkID: string, fixedIPs: seq<string>)

  /** A server with what the lookups about it say; None is a lookup that failed. */
  datatype Server = Server(
    id: string, name: string, tenantID: string, gpu: Option<bool>, ports: Option<seq<ServerPort>>)

  /** The first IPv4 address in port-then-address order, with its port's network. */
  datatype Address = Address(ip: string, networkID: string)

  function FirstOf(ips: seq<string>, isV4: string -> bool): Option<string> {
    if ips == [] then None else if isV4(ips[0]) then Some(ips[0]) else FirstOf(ips[1..], isV4)
  }

  function FirstAddress(ports: seq<ServerPort>, isV4: string -> bool): Option<Address> {
    if ports == [] then None
    else
      var ip := FirstOf(ports[0].fixedIPs, isV4);
      if ip.Some? then Some(Address(ip.value, ports[0].networkID)) else FirstAddress(ports[1..], isV4)
  }

  function NetworkIDs(ports: seq<ServerPort>): seq<string> {
    if ports == [] then []
    else NetworkIDs(ports[..|ports| - 1])
         + if ports[|ports| - 1].networkID == "" then [] else [ports[|ports| - 1].networkID]
  }

  function TargetOf(s: Server, isV4: string -> bool): Option<TargetVM> {
    if s.gpu != Some(true) || s.ports.None? then None
    else
      var a := FirstAddress(s.ports.value, isV4);
      if a.None? then None
      else Some(TargetVM(s.id, s.name, s.tenantID, a.value.networkID, NetworkIDs(s.ports.value), a.value.ip, 9400,
                         DerivedNetNS("", a.value.networkID)))
  }

  function Discovered(servers: seq<Server>, isV4: string -> bool): seq<TargetVM> {
    if servers == [] then []
    else
      var t := TargetOf(servers[|servers| - 1], isV4);
      Discovered(servers[..|servers| - 1], isV4) + if t.Some? then [t.value] else []
  }

  // --- what the functions mean

  /** Position (i, j) holds the first IPv4 address of all. */
  ghost predicate FirstAt(ports: seq<ServerPort>, i: nat, j: nat, isV4: string -> bool) {
    && i < |ports| && j < |ports[i].fixedIPs| && isV4(ports[i].fixedIPs[j])
    && (forall l :: 0 <= l < j ==> !isV4(ports[i].fixedIPs[l]))
    && (forall k, l :: 0 <= k < i && 0 <= l < |ports[k].fixedIPs| ==> !isV4(ports[k].fixedIPs[l]))
  }

  ghost predicate OwnsV4(ports: seq<ServerPort>, isV4: string -> bool) {
    exists i, l :: 0 <= i < |ports| && 0 <= l < |ports[i].fixedIPs| && isV4(ports[i].fixedIPs[l])
  }

  lemma {:induction false} FirstOfIsFirst(ips: seq<string>, isV4: string -> bool)
    ensures FirstOf(ips, isV4).None? <==> forall l :: 0 <= l < |ips| ==> !isV4(ips[l])
    ensures FirstOf(ips, isV4).Some? ==>
      exists j :: 0 <= j < |ips| && ips[j] == FirstOf(ips, isV4).value && isV4(ips[j])
        && forall l :: 0 <= l < j ==> !isV4(ips[l])
  {
    if ips != [] && !isV4(ips[0]) {
      FirstOfIsFirst(ips[1..], isV4);
      if FirstOf(ips, isV4).Some? {
        var j :| 0 <= j < |ips[1..]| && ips[1..][j] == FirstOf(ips, isV4).value && isV4(ips[1..][j])
          && forall l :: 0 <= l < j ==> !isV4(ips[1..][l]);
        assert ips[j + 1] == ips[1..][j];
        forall l | 0 <= l < j + 1 ensures !isV4(ips[l]) {
          assert l == 0 || ips[l] == ips[1..][l - 1];
        }
      } else {
        forall l | 0 <= l < |ips| ensures !isV4(ips[l]) {
          assert l == 0 || ips[l] == ips[1..][l - 1];
        }
      }
    } else if ips != [] {
      assert ips[0] == FirstOf(ips, isV4).value;
    }
  }

  /** The address found is the first in port-then-address order; none is found only if there is none. */
  lemma {:induction false} FirstAddressIsFirst(ports: seq<ServerPort>, isV4: string -> bool)
    ensures var a := FirstAddress(ports, isV4);
      && (a.Some? ==> exists i: nat, j: nat ::
            FirstAt(ports, i, j, isV4) && a.value == Address(ports[i].fixedIPs[j], ports[i].networkID))
      && (a.None? ==> !OwnsV4(ports, isV4))
  {
    if ports != [] {
      FirstOfIsFirst(ports[0].fixedIPs, isV4);
      var ip := FirstOf(ports[0].fixedIPs, isV4);
      if ip.Some? {
        var j: nat :| j < |ports[0].fixedIPs| && ports[0].fixedIPs[j] == ip.value && isV4(ports[0].fixedIPs[j])
          && forall l :: 0 <= l < j ==> !isV4(ports[0].fixedIPs[l]);
        assert FirstAt(ports, 0, j, isV4);
      } else {
        FirstAddressIsFirst(ports[1..], isV4);
        if FirstAddress(ports, isV4).Some? {
          var i: nat, j: nat :| FirstAt(ports[1..], i, j, isV4)
            && FirstAddress(ports, isV4).value == Address(ports[1..][i].fixedIPs[j], ports[1..][i].networkID);
          assert ports[i + 1] == ports[1..][i];
          forall k, l | 0 <= k < i + 1 && 0 <= l < |ports[k].fixedIPs| ensures !isV4(ports[k].fixedIPs[l]) {
            assert k == 0 || ports[k] == ports[1..][k - 1];
          }
          assert FirstAt(ports, i + 1, j, isV4);
        } else {
          forall i, l | 0 <= i < |ports| && 0 <= l < |ports[i].fixedIPs| ensures !isV4(ports[i].fixedIPs[l]) {
            assert i == 0 || ports[i] == ports[1..][i - 1];
          }
        }
      }
    }
  }

  lemma {:induction false} NetworkIDsHold(ports: seq<ServerPort>, n: string)
    ensures n in NetworkIDs(ports) <==> n != "" && exists i :: 0 <= i < |ports| && ports[i].networkID == n
  {
    if ports != [] {
      var last := |ports| - 1;
      NetworkIDsHold(ports[..last], n);
      if i :| 0 <= i < |ports| && ports[i].networkID == n {
        assert i == last || ports[..last][i].networkID == n;
      }
    }
  }

  /** Each target comes from a server that passed every test; its address is the server's first IPv4 address, its
      network is that port's, and if it has one it is among NetworkIDs. */
  lemma TargetIsFaithful(s: Server, isV4: string -> bool)
    ensures TargetOf(s, isV4).Some? <==>
      s.gpu == Some(true) && s.ports.Some? && OwnsV4(s.ports.value, isV4)
    ensures TargetOf(s, isV4).Some? ==>
      var t, ports := TargetOf(s, isV4).value, s.ports.value;
      && t.vmID == s.id && t.vmName == s.name && t.projectID == s.tenantID && t.port == 9400
      && (forall n :: n in t.networkIDs <==> n != "" && exists i :: 0 <= i < |ports| && ports[i].networkID == n)
      && (exists i: nat, j: nat :: FirstAt(ports, i, j, isV4)
            && t.guestIP == ports[i].fixedIPs[j] && t.networkID == ports[i].networkID)
      && (t.networkID != "" ==> t.networkID in t.networkIDs)
      && IsNamespaceFor(t.netNS, "", t.networkID)
  {
    if s.ports.Some? {
      var ports := s.ports.value;
      FirstAddressIsFirst(ports, isV4);
      var a := FirstAddress(ports, isV4);
      if a.Some? {
        var i: nat, j: nat :|
          FirstAt(ports, i, j, isV4) && a.value == Address(ports[i].fixedIPs[j], ports[i].networkID);
        forall n {
          NetworkIDsHold(ports, n);
        }
      }
    }
  }

  lemma {:induction false} DiscoveredAreNamed(servers: seq<Server>, isV4: string -> bool)
    ensures forall t :: t in Discovered(servers, isV4) ==> IsNamespaceFor(t.netNS, "", t.networkID)
    decreases servers
  {
    if servers != [] {
      DiscoveredAreNamed(servers[..|servers| - 1], isV4);
      TargetIsFaithful(servers[|servers| - 1], isV4);
    }
  }

  /** The network ids come in the order of the ports. */
  lemma {:induction false} NetworkIDsInOrder(xs: seq<ServerPort>, p: ServerPort, ys: seq<ServerPort>)
    ensures NetworkIDs(xs + [p] + ys)
      == NetworkIDs(xs) + (if p.networkID == "" then [] else [p.networkID]) + NetworkIDs(ys)
    decreases ys
  {
    if ys == [] {
      assert xs + [p] + ys == xs + [p] && (xs + [p])[..|xs|] == xs;
    } else {
      var n := |ys| - 1;
      assert (xs + [p] + ys)[..|xs| + 1 + n] == xs + [p] + ys[..n];
      NetworkIDsInOrder(xs, p, ys[..n]);
    }
  }

  lemma {:induction false} DiscoveredConcat(xs: seq<Server>, ys: seq<Server>, isV4: string -> bool)
    ensures Discovered(xs + ys, isV4) == Discovered(xs, isV4) + Discovered(ys, isV4)
    decreases ys
  {
    if ys == [] {
      assert xs + ys == xs;
    } else {
      var n := |ys| - 1;
      assert (xs + ys)[..|xs + ys| - 1] == xs + ys[..n];
      DiscoveredConcat(xs, ys[..n], isV4);
    }
  }

  /** Whatever the lookups about one server say, the targets of the servers before and after it are the same. */
  lemma OneServerChangesNoOther(xs: seq<Server>, s: Server, ys: seq<Server>, isV4: string -> bool)
    ensures var t := TargetOf(s, isV4);
      Discovered(xs + [s] + ys, isV4)
      == Discovered(xs, isV4) + (if t.Some? then [t.value] else []) + Discovered(ys, isV4)
  {
    DiscoveredConcat(xs + [s], ys, isV4);
    DiscoveredConcat(xs, [s], isV4);
    assert Discovered([s][..0], isV4) == [];
  }

  /** The loops of DiscoverComputeVMs once the servers are listed. */
  method DiscoverComputeVMs(servers: seq<Server>, isV4: string -> bool) returns (targets: seq<TargetVM>)
    requires !isV4("")
    ensures targets == Discovered(servers, isV4)
  {
    targets := [];
    for k := 0 to |servers|
      invariant targets == Discovered(servers[..k], isV4)
    {
      var s := servers[k];
      assert servers[..k + 1][..k] == servers[..k];
      if s.gpu.None? {
        continue;
      }
      if !s.gpu.value {
        continue;
      }
      if s.ports.None? {
        continue;
      }
      var guestIP, networkID, networkIDs := ReadPorts(s.ports.value, isV4);
      if guestIP == "" {
        continue;
      }
      var netnsName := "";
      if networkID != "" {
        netnsName := NetNSName(Short(networkID));
      }
      targets := targets + [TargetVM(s.id, s.name, s.tenantID, networkID, networkIDs, guestIP, 9400, netnsName)];
    }
    assert servers[..|servers|] == servers;
  }

  method ReadPorts(ports: seq<ServerPort>, isV4: string -> bool)
    returns (guestIP: string, networkID: string, networkIDs: seq<string>)
    requires !isV4("")
    ensures networkIDs == NetworkIDs(ports)
    ensures var a := FirstAddress(ports, isV4);
      if a.Some? then guestIP == a.value.ip != "" && networkID == a.value.networkID else guestIP == "" == networkID
  {
    guestIP, networkID, networkIDs := "", "", [];
    for i := 0 to |ports|
      invariant networkIDs == NetworkIDs(ports[..i])
      invariant if guestIP == "" then networkID == "" && FirstAddress(ports[i..], isV4) == FirstAddress(ports, isV4)
                else FirstAddress(ports, isV4) == Some(Address(guestIP, networkID))
    {
      var p := ports[i];
      assert ports[..i + 1][..i] == ports[..i] && ports[i..][1..] == ports[i + 1..];
      if p.networkID != "" {
        networkIDs := networkIDs + [p.networkID];
      }
      if guestIP == "" {
        for j := 0 to |p.fixedIPs|
          invariant guestIP == "" && networkID == ""
          invariant FirstOf(p.fixedIPs[j..], isV4) == FirstOf(p.fixedIPs, isV4)
        {
          assert p.fixedIPs[j..][1..] == p.fixedIPs[j + 1..];
          if isV4(p.fixedIPs[j]) {
            guestIP, networkID := p.fixedIPs[j], p.networkID;
            break;
          }
        }
      }
    }
    assert ports[..|ports|] == ports;
  }
}
