/** The persistent host ports that the Control Service keeps in Neutron, under API calls that fail or whose
    reply is lost. */
module HostPorts {
  import opened Api
  import opened Naming

  datatype NeutronPort = NeutronPort(
    id: string, name: string, networkID: string, hostID: string, mac: string, fixedIPs: seq<(string, string)>)

  /** What Neutron chooses for a new port. */
  datatype Chosen = Chosen(id: string, mac: string, fixedIPs: seq<(string, string)>)

  /** How one API call goes. A lost reply reads as an error although the call took effect. */
  datatype ApiReply = Answered(chosen: Chosen) | Refused | Lost(chosen: Chosen)

  /** The ports and the fate of the calls to come; after the last one listed calls are answered. */
  datatype Neutron = Neutron(ports: seq<NeutronPort>, replies: seq<ApiReply>)

  datatype Listing = Listing(neutron: Neutron, ports: Option<seq<NeutronPort>>)
  datatype Creation = Creation(neutron: Neutron, port: Option<NeutronPort>)

  function Head(n: Neutron): ApiReply { if n.replies == [] then Answered(Chosen("", "", [])) else n.replies[0] }
  function Tail(n: Neutron): seq<ApiReply> { if n.replies == [] then [] else n.replies[1..] }

  function Named(ports: seq<NeutronPort>, name: string): seq<NeutronPort> {
    if ports == [] then []
    else (if ports[0].name == name then [ports[0]] else []) + Named(ports[1..], name)
  }

  function ListPorts(n: Neutron, name: string): Listing {
    Listing(n.(replies := Tail(n)), if Head(n).Answered? then Some(Named(n.ports, name)) else None)
  }

  function CreatePort(n: Neutron, name: string, networkID: string, host: string): Creation {
    var r := Head(n);
    if r.Refused? then Creation(n.(replies := Tail(n)), None)
    else
      var p := NeutronPort(r.chosen.id, name, networkID, host, r.chosen.mac, r.chosen.fixedIPs);
      Creation(Neutron(n.ports + [p], Tail(n)), if r.Answered? then Some(p) else None)
  }

  /** The first port with a name. The source's findPortByNameAndHost does not look at the host. */
  function Find(ports: seq<NeutronPort>, name: string): Option<NeutronPort> {
    if ports == [] then None else if ports[0].name == name then Some(ports[0]) else Find(ports[1..], name)
  }

  datatype Ensured = Ensured(neutron: Neutron, endpoints: seq<HostNetworkEndpoint>, ok: bool)

  /** A port found, or a port created, or an error. */
  function EnsurePort(n: Neutron, host: string, netID: string): Creation {
    var name := PortName(host, Short(netID));
    var l := ListPorts(n, name);
    if l.ports.None? then Creation(l.neutron, None)
    else if Find(l.ports.value, name).Some? then Creation(l.neutron, Find(l.ports.value, name))
    else CreatePort(l.neutron, name, netID, host)
  }

  function EndpointFor(netID: string, p: NeutronPort, format: NeutronPort -> string): HostNetworkEndpoint {
    HostNetworkEndpoint(netID, p.id, p.mac, format(p), HostIfName(Short(netID)), NetNSName(Short(netID)))
  }

  function EnsureHostPorts(n: Neutron, host: string, netIDs: seq<string>, format: NeutronPort -> string): Ensured
    decreases netIDs
  {
    if netIDs == [] then Ensured(n, [], true)
    else if netIDs[0] == "" then EnsureHostPorts(n, host, netIDs[1..], format)
    else
      var c := EnsurePort(n, host, netIDs[0]);
      if c.port.None? then Ensured(c.neutron, [], false)
      else
        var rest := EnsureHostPorts(c.neutron, host, netIDs[1..], format);
        if rest.ok
        then Ensured(rest.neutron, [EndpointFor(netIDs[0], c.port.value, format)] + rest.endpoints, true)
        else rest
  }

  /** What a call that has gathered some endpoints will answer, given the networks still to come. */
  function Pending(
    n: Neutron, host: string, netIDs: seq<string>, format: NeutronPort -> string, got: seq<HostNetworkEndpoint>)
    : Ensured
  {
    var rest := EnsureHostPorts(n, host, netIDs, format);
    if rest.ok then Ensured(rest.neutron, got + rest.endpoints, true) else Ensured(rest.neutron, [], false)
  }

  lemma PendingStep(
    n: Neutron, host: string, netIDs: seq<string>, format: NeutronPort -> string, got: seq<HostNetworkEndpoint>)
    requires netIDs != []
    ensures var c := EnsurePort(n, host, netIDs[0]);
      Pending(n, host, netIDs, format, got) ==
        if netIDs[0] == "" then Pending(n, host, netIDs[1..], format, got)
        else if c.port.None? then Ensured(c.neutron, [], false)
        else Pending(c.neutron, host, netIDs[1..], format, got + [EndpointFor(netIDs[0], c.port.value, format)])
  {
    var c := EnsurePort(n, host, netIDs[0]);
    if netIDs[0] != "" && c.port.Some? {
      var ep := EndpointFor(netIDs[0], c.port.value, format);
      var rest := EnsureHostPorts(c.neutron, host, netIDs[1..], format);
      assert got + ([ep] + rest.endpoints) == (got + [ep]) + rest.endpoints;
    }
  }

  lemma {:induction false} FailureHasNoEndpoints(
    n: Neutron, host: string, netIDs: seq<string>, format: NeutronPort -> string)
    ensures Pending(n, host, netIDs, format, []) == EnsureHostPorts(n, host, netIDs, format)
    decreases netIDs
  {
    if netIDs != [] {
      if netIDs[0] == "" {
        FailureHasNoEndpoints(n, host, netIDs[1..], format);
      } else if EnsurePort(n, host, netIDs[0]).port.Some? {
        FailureHasNoEndpoints(EnsurePort(n, host, netIDs[0]).neutron, host, netIDs[1..], format);
      }
    }
  }

  // --- what one call leaves

  lemma {:induction false} FindNamed(ports: seq<NeutronPort>, name: string)
    ensures Find(Named(ports, name), name) == Find(ports, name)
  {
    if ports != [] {
      FindNamed(ports[1..], name);
      if ports[0].name != name {
        assert Named(ports, name) == Named(ports[1..], name);
      }
    }
  }

  lemma {:induction false} FindStays(ports: seq<NeutronPort>, more: seq<NeutronPort>, name: string)
    ensures Find(ports, name).Some? ==> Find(ports + more, name) == Find(ports, name)
    ensures Find(ports, name).None? ==> Find(ports + more, name) == Find(more, name)
  {
    if ports == [] {
      assert ports + more == more;
    } else {
      assert (ports + more)[1..] == ports[1..] + more;
      FindStays(ports[1..], more, name);
    }
  }

  lemma FindStaysIn(ports: seq<NeutronPort>, longer: seq<NeutronPort>, name: string)
    requires ports <= longer
    ensures Find(ports, name).Some? ==> Find(longer, name) == Find(ports, name)
  {
    FindStays(ports, longer[|ports|..], name);
    assert ports + longer[|ports|..] == longer;
  }

  lemma {:induction false} FindFinds(ports: seq<NeutronPort>, name: string)
    ensures Find(ports, name).Some? ==> Find(ports, name).value in ports && Find(ports, name).value.name == name
    ensures Find(ports, name).None? ==> forall p :: p in ports ==> p.name != name
  {
    if ports != [] {
      FindFinds(ports[1..], name);
    }
  }

  /** Among the given networks: a port bearing one of our names belongs to that host and network, and no two
      ports bear the same one. Other ports are whatever they are. */
  ghost predicate OnePortEach(ports: seq<NeutronPort>, nets: set<string>) {
    && (forall p, h, n :: p in ports && n in nets && p.name == PortName(h, Short(n)) ==>
          p.hostID == h && p.networkID == n)
    && (forall i, j, h, n :: 0 <= i < j < |ports| && n in nets && ports[i].name == PortName(h, Short(n)) ==>
          ports[j].name != ports[i].name)
  }

  /** The networks in use differ in their first eight bytes. */
  ghost predicate ShortsDiffer(nets: set<string>) {
    && (forall n :: n in nets ==> |n| >= 8)
    && (forall n, m :: n in nets && m in nets && Short(n) == Short(m) ==> n == m)
  }

  lemma CreateKeepsOnePort(ports: seq<NeutronPort>, p: NeutronPort, nets: set<string>)
    requires ShortsDiffer(nets) && OnePortEach(ports, nets)
    requires p.networkID in nets && p.name == PortName(p.hostID, Short(p.networkID)) && Find(ports, p.name).None?
    ensures OnePortEach(ports + [p], nets)
  {
    FindFinds(ports, p.name);
    var more := ports + [p];
    forall q, h, n | q in more && n in nets && q.name == PortName(h, Short(n))
      ensures q.hostID == h && q.networkID == n
    {
      if q == p {
        NamesAreInjective(Short(n), Short(p.networkID), h, p.hostID);
      }
    }
  }

  lemma EnsurePortKeeps(n: Neutron, host: string, netID: string, nets: set<string>)
    requires ShortsDiffer(nets) && netID in nets && OnePortEach(n.ports, nets)
    ensures var c := EnsurePort(n, host, netID);
      && n.ports <= c.neutron.ports && OnePortEach(c.neutron.ports, nets)
      && (c.port.Some? ==>
            && Find(c.neutron.ports, PortName(host, Short(netID))) == c.port
            && c.port.value.networkID == netID && c.port.value.hostID == host)
  {
    var name := PortName(host, Short(netID));
    FindNamed(n.ports, name);
    FindFinds(n.ports, name);
    EnsurePortFinds(n, host, netID);
    var c := EnsurePort(n, host, netID);
    if |c.neutron.ports| > |n.ports| {
      CreateKeepsOnePort(n.ports, c.neutron.ports[|n.ports|], nets);
    }
  }

  /** Whatever the networks: the store only grows, and a port that is returned is the first with its name. */
  lemma EnsurePortFinds(n: Neutron, host: string, netID: string)
    ensures var c := EnsurePort(n, host, netID); var name := PortName(host, Short(netID));
      && n.ports <= c.neutron.ports
      && (c.port.Some? ==> Find(c.neutron.ports, name) == c.port)
      && (|c.neutron.ports| > |n.ports| ==>
            && Find(n.ports, name).None?
            && var p := c.neutron.ports[|n.ports|];
               c.neutron.ports == n.ports + [p] && p.name == name && p.networkID == netID && p.hostID == host)
  {
    var name := PortName(host, Short(netID));
    FindNamed(n.ports, name);
    var c := EnsurePort(n, host, netID);
    if |c.neutron.ports| > |n.ports| {
      var p := c.neutron.ports[|n.ports|];
      FindStays(n.ports, [p], name);
      assert Find([p], name) == Some(p);
    }
  }

  /** The ids in a list that are not empty, in order. */
  function NonEmpty(netIDs: seq<string>): seq<string> {
    if netIDs == [] then [] else (if netIDs[0] == "" then [] else [netIDs[0]]) + NonEmpty(netIDs[1..])
  }

  /** The endpoint stands for the port that the store holds under its name. */
  ghost predicate Backed(
    ep: HostNetworkEndpoint, netID: string, host: string, ports: seq<NeutronPort>, format: NeutronPort -> string)
  {
    && ep.networkID == netID && ep.vethName == HostIfName(Short(netID)) && ep.netNS == NetNSName(Short(netID))
    && IsNamespaceFor(ep.netNS, "", netID)
    && ep.vethName == "net" + (if |netID| >= 8 then netID[..8] else netID)
    && var f := Find(ports, PortName(host, Short(netID)));
       f.Some? && f.value.id == ep.portID && f.value.mac == ep.mac && ep.ip == format(f.value)
  }

  ghost predicate AllBacked(
    eps: seq<HostNetworkEndpoint>, ids: seq<string>, host: string, ports: seq<NeutronPort>,
    format: NeutronPort -> string)
  {
    |eps| == |ids| && forall i :: 0 <= i < |eps| ==> Backed(eps[i], ids[i], host, ports, format)
  }

  /** A call that succeeds yields one endpoint for each non-empty id, in order, each backed by the store. */
  lemma {:induction false} EnsureHostPortsBacked(
    n: Neutron, host: string, netIDs: seq<string>, format: NeutronPort -> string)
    ensures var r := EnsureHostPorts(n, host, netIDs, format);
      && n.ports <= r.neutron.ports
      && (r.ok ==> AllBacked(r.endpoints, NonEmpty(netIDs), host, r.neutron.ports, format))
    decreases netIDs
  {
    if netIDs != [] {
      if netIDs[0] == "" {
        EnsureHostPortsBacked(n, host, netIDs[1..], format);
        assert NonEmpty(netIDs) == NonEmpty(netIDs[1..]);
      } else {
        var c := EnsurePort(n, host, netIDs[0]);
        EnsurePortFinds(n, host, netIDs[0]);
        if c.port.Some? {
          var r := EnsureHostPorts(c.neutron, host, netIDs[1..], format);
          EnsureHostPortsBacked(c.neutron, host, netIDs[1..], format);
          FindStaysIn(c.neutron.ports, r.neutron.ports, PortName(host, Short(netIDs[0])));
          if r.ok {
            BackedOneMore(EndpointFor(netIDs[0], c.port.value, format), netIDs[0], r.endpoints, NonEmpty(netIDs[1..]),
              host, r.neutron.ports, format);
          }
        }
      }
    }
  }

  lemma BackedOneMore(
    ep: HostNetworkEndpoint, id: string, eps: seq<HostNetworkEndpoint>, ids: seq<string>, host: string,
    ports: seq<NeutronPort>, format: NeutronPort -> string)
    requires Backed(ep, id, host, ports, format) && AllBacked(eps, ids, host, ports, format)
    ensures AllBacked([ep] + eps, [id] + ids, host, ports, format)
  {
  }

  lemma {:induction false} EnsureHostPortsKeeps(
    n: Neutron, host: string, netIDs: seq<string>, format: NeutronPort -> string, nets: set<string>)
    requires ShortsDiffer(nets) && OnePortEach(n.ports, nets)
    requires forall id :: id in netIDs && id != "" ==> id in nets
    ensures OnePortEach(EnsureHostPorts(n, host, netIDs, format).neutron.ports, nets)
    decreases netIDs
  {
    if netIDs != [] {
      if netIDs[0] == "" {
        EnsureHostPortsKeeps(n, host, netIDs[1..], format, nets);
      } else {
        EnsurePortKeeps(n, host, netIDs[0], nets);
        var c := EnsurePort(n, host, netIDs[0]);
        if c.port.Some? {
          EnsureHostPortsKeeps(c.neutron, host, netIDs[1..], format, nets);
        }
      }
    }
  }

  // --- errors

  /** The first k calls were answered, and what came of the next decides. */
  ghost predicate Used(before: seq<ApiReply>, after: seq<ApiReply>, k: nat, ok: bool) {
    && k <= |before| && (forall i :: 0 <= i < k ==> before[i].Answered?)
    && if ok then after == before[k..] else k < |before| && !before[k].Answered? && after == before[k + 1..]
  }

  lemma EnsurePortUses(n: Neutron, host: string, netID: string) returns (k: nat)
    ensures var c := EnsurePort(n, host, netID); Used(n.replies, c.neutron.replies, k, c.port.Some?)
  {
    var l := ListPorts(n, PortName(host, Short(netID)));
    var c := EnsurePort(n, host, netID);
    if l.ports.None? {
      k := 0;
    } else if Find(l.ports.value, PortName(host, Short(netID))).Some? || |n.replies| <= 1 {
      k := if n.replies == [] then 0 else 1;
    } else {
      k := if c.port.Some? then 2 else 1;
    }
  }

  /** A call fails exactly if one of the API calls it makes fails or loses its reply, and makes none after that. */
  lemma {:induction false} StopsAtTheFirstFailure(
    n: Neutron, host: string, netIDs: seq<string>, format: NeutronPort -> string) returns (k: nat)
    ensures var r := EnsureHostPorts(n, host, netIDs, format); Used(n.replies, r.neutron.replies, k, r.ok)
    decreases netIDs
  {
    if netIDs == [] {
      k := 0;
    } else if netIDs[0] == "" {
      k := StopsAtTheFirstFailure(n, host, netIDs[1..], format);
    } else {
      var c := EnsurePort(n, host, netIDs[0]);
      k := EnsurePortUses(n, host, netIDs[0]);
      if c.port.Some? {
        var m := StopsAtTheFirstFailure(c.neutron, host, netIDs[1..], format);
        UsedThen(n.replies, k, c.neutron.replies, m);
        k := k + m;
      }
    }
  }

  lemma UsedThen(before: seq<ApiReply>, k: nat, mid: seq<ApiReply>, m: nat)
    requires Used(before, mid, k, true)
    ensures forall after, ok :: Used(mid, after, m, ok) ==> Used(before, after, k + m, ok)
  {
    forall after, ok | Used(mid, after, m, ok)
      ensures Used(before, after, k + m, ok)
    {
      assert forall i :: k <= i < k + m ==> before[i] == mid[i - k];
      if ok {
        assert before[k..][m..] == before[k + m..];
      } else {
        assert before[k..][m] == before[k + m] && before[k..][m + 1..] == before[k + m + 1..];
      }
    }
  }

  // --- runs of calls that do not overlap

  datatype Call = Call(host: string, netIDs: seq<string>, replies: seq<ApiReply>)

  function Answer(ports: seq<NeutronPort>, c: Call, format: NeutronPort -> string): Ensured {
    EnsureHostPorts(Neutron(ports, c.replies), c.host, c.netIDs, format)
  }

  function PortsAfter(ports: seq<NeutronPort>, calls: seq<Call>, format: NeutronPort -> string): seq<NeutronPort>
    decreases calls
  {
    if calls == [] then ports
    else PortsAfter(Answer(ports, calls[0], format).neutron.ports, calls[1..], format)
  }

  ghost predicate CallsUse(calls: seq<Call>, nets: set<string>) {
    forall c, id :: c in calls && id in c.netIDs && id != "" ==> id in nets
  }

  /** Over any run there is never more than one port for a host and network, and each lies on that network. */
  lemma {:induction false} OnePortPerHostAndNetwork(
    ports: seq<NeutronPort>, calls: seq<Call>, format: NeutronPort -> string, nets: set<string>)
    requires ShortsDiffer(nets) && OnePortEach(ports, nets) && CallsUse(calls, nets)
    ensures var after := PortsAfter(ports, calls, format); ports <= after && OnePortEach(after, nets)
    decreases calls
  {
    if calls != [] {
      var c := calls[0];
      EnsureHostPortsKeeps(Neutron(ports, c.replies), c.host, c.netIDs, format, nets);
      EnsureHostPortsBacked(Neutron(ports, c.replies), c.host, c.netIDs, format);
      OnePortPerHostAndNetwork(Answer(ports, c, format).neutron.ports, calls[1..], format, nets);
    }
  }

  lemma {:induction false} StoreGrows(ports: seq<NeutronPort>, calls: seq<Call>, format: NeutronPort -> string)
    ensures ports <= PortsAfter(ports, calls, format)
    decreases calls
  {
    if calls != [] {
      EnsureHostPortsBacked(Neutron(ports, calls[0].replies), calls[0].host, calls[0].netIDs, format);
      StoreGrows(Answer(ports, calls[0], format).neutron.ports, calls[1..], format);
    }
  }

  /** The port id returned for a host and network never changes: two successful calls of a run, with any calls
      between them, give the network the same port, which lies on that network and host. */
  lemma PortIDsArePersistent(
    ports: seq<NeutronPort>, first: Call, between: seq<Call>, last: Call, format: NeutronPort -> string,
    nets: set<string>, i: nat, j: nat)
    requires ShortsDiffer(nets) && OnePortEach(ports, nets) && CallsUse([first] + between + [last], nets)
    requires first.host == last.host
    requires var a := Answer(ports, first, format);
      var b := Answer(PortsAfter(a.neutron.ports, between, format), last, format);
      && a.ok && b.ok && i < |a.endpoints| && j < |b.endpoints|
      && a.endpoints[i].networkID == b.endpoints[j].networkID
    ensures var a := Answer(ports, first, format);
      var b := Answer(PortsAfter(a.neutron.ports, between, format), last, format);
      && a.endpoints[i].portID == b.endpoints[j].portID
      && exists p :: p in b.neutron.ports && p.id == b.endpoints[j].portID
           && p.networkID == b.endpoints[j].networkID && p.hostID == last.host
  {
    var a := Answer(ports, first, format);
    var mid := PortsAfter(a.neutron.ports, between, format);
    var b := Answer(mid, last, format);
    var netID := a.endpoints[i].networkID;
    assert first in [first] + between + [last] && last in [first] + between + [last];
    assert CallsUse(between, nets) by {
      forall c | c in between ensures c in [first] + between + [last] {}
    }
    EnsureHostPortsBacked(Neutron(ports, first.replies), first.host, first.netIDs, format);
    StoreGrows(a.neutron.ports, between, format);
    EnsureHostPortsBacked(Neutron(mid, last.replies), last.host, last.netIDs, format);
    BackedStays(a.endpoints[i], netID, first.host, a.neutron.ports, b.neutron.ports, format);
    EnsureHostPortsKeeps(Neutron(ports, first.replies), first.host, first.netIDs, format, nets);
    OnePortPerHostAndNetwork(a.neutron.ports, between, format, nets);
    EnsureHostPortsKeeps(Neutron(mid, last.replies), last.host, last.netIDs, format, nets);
    NonEmptyIn(first.netIDs);
    assert NonEmpty(first.netIDs)[i] in NonEmpty(first.netIDs);
    BackedLiesOnNetwork(b.endpoints[j], netID, last.host, b.neutron.ports, format, nets);
  }

  lemma BackedStays(
    ep: HostNetworkEndpoint, netID: string, host: string, ports: seq<NeutronPort>, later: seq<NeutronPort>,
    format: NeutronPort -> string)
    requires Backed(ep, netID, host, ports, format) && ports <= later
    ensures Backed(ep, netID, host, later, format)
  {
    FindStays(ports, later[|ports|..], PortName(host, Short(netID)));
    assert ports + later[|ports|..] == later;
  }

  lemma BackedLiesOnNetwork(
    ep: HostNetworkEndpoint, netID: string, host: string, ports: seq<NeutronPort>, format: NeutronPort -> string,
    nets: set<string>)
    requires Backed(ep, netID, host, ports, format) && OnePortEach(ports, nets) && netID in nets
    ensures exists p :: p in ports && p.id == ep.portID && p.networkID == netID && p.hostID == host
  {
    var name := PortName(host, Short(netID));
    FindFinds(ports, name);
    var p := Find(ports, name).value;
    assert p in ports && p.name == name;
  }

  lemma {:induction false} NonEmptyIn(netIDs: seq<string>)
    ensures forall id :: id in NonEmpty(netIDs) <==> id in netIDs && id != ""
  {
    if netIDs != [] {
      NonEmptyIn(netIDs[1..]);
      assert netIDs == [netIDs[0]] + netIDs[1..];
    }
  }

  // --- networks that share their first eight bytes

  ghost predicate OnOwnNetwork(netID: string, host: string, ports: seq<NeutronPort>) {
    var f := Find(ports, PortName(host, Short(netID)));
    f.Some? && f.value.networkID == netID
  }

  /** No two networks of a list share their first eight bytes. */
  ghost predicate ShortsTell(netIDs: seq<string>) {
    forall i, j :: i in netIDs && j in netIDs && i != "" && j != "" && Short(i) == Short(j) ==> i == j
  }

  /** The port that a store already has under a network's name, if any, lies on that network. */
  ghost predicate NameIsFreeOrOwn(netID: string, host: string, ports: seq<NeutronPort>) {
    var f := Find(ports, PortName(host, Short(netID)));
    f.Some? ==> f.value.networkID == netID
  }

  /** Finding or creating the port of one network puts it there, and takes no other network's name. */
  lemma EnsurePortOnOwn(n: Neutron, host: string, id: string, other: string)
    requires NameIsFreeOrOwn(id, host, n.ports) && NameIsFreeOrOwn(other, host, n.ports)
    requires Short(id) == Short(other) ==> id == other
    requires EnsurePort(n, host, id).port.Some?
    ensures var ports := EnsurePort(n, host, id).neutron.ports;
      OnOwnNetwork(id, host, ports) && NameIsFreeOrOwn(other, host, ports)
  {
    EnsurePortFinds(n, host, id);
    var ports := EnsurePort(n, host, id).neutron.ports;
    FindStaysIn(n.ports, ports, PortName(host, Short(id)));
    FindStaysIn(n.ports, ports, PortName(host, Short(other)));
    if |ports| > |n.ports| {
      var p := ports[|n.ports|];
      FindStays(n.ports, [p], PortName(host, Short(id)));
      FindStays(n.ports, [p], PortName(host, Short(other)));
      PortNameTellsShort(host, Short(id), Short(other));
    }
  }

  lemma {:induction false} EnsureHostPortsOnOwn(
    n: Neutron, host: string, netIDs: seq<string>, format: NeutronPort -> string)
    requires ShortsTell(netIDs) && forall id :: id in netIDs && id != "" ==> NameIsFreeOrOwn(id, host, n.ports)
    requires EnsureHostPorts(n, host, netIDs, format).ok
    ensures var ports := EnsureHostPorts(n, host, netIDs, format).neutron.ports;
      forall id :: id in netIDs && id != "" ==> OnOwnNetwork(id, host, ports)
    decreases netIDs
  {
    if netIDs != [] {
      var id, rest := netIDs[0], netIDs[1..];
      assert netIDs == [id] + rest;
      if id == "" {
        EnsureHostPortsOnOwn(n, host, rest, format);
      } else {
        var c := EnsurePort(n, host, id);
        var ports := EnsureHostPorts(n, host, netIDs, format).neutron.ports;
        forall other | other in netIDs && other != ""
          ensures OnOwnNetwork(id, host, c.neutron.ports) && NameIsFreeOrOwn(other, host, c.neutron.ports)
        {
          EnsurePortOnOwn(n, host, id, other);
        }
        assert id in netIDs;
        EnsureHostPortsOnOwn(c.neutron, host, rest, format);
        EnsureHostPortsBacked(c.neutron, host, rest, format);
        FindStaysIn(c.neutron.ports, ports, PortName(host, Short(id)));
      }
    }
  }

  lemma PortNameTellsShort(host: string, s: string, t: string)
    ensures PortName(host, s) == PortName(host, t) ==> s == t
  {
    var front := "dcgm-" + host + "-";
    assert PortName(host, s)[|front|..] == s && PortName(host, t)[|front|..] == t;
  }

  /** The exact condition, for any store: a call that succeeds leaves every network of its list with a port on that
      network under its name if and only if no two of the list share their first eight bytes, and no port already
      there under the name of one of them lies on another network. */
  lemma PortsOnOwnNetworksIff(n: Neutron, host: string, netIDs: seq<string>, format: NeutronPort -> string)
    requires EnsureHostPorts(n, host, netIDs, format).ok
    ensures var ports := EnsureHostPorts(n, host, netIDs, format).neutron.ports;
      (forall id :: id in netIDs && id != "" ==> OnOwnNetwork(id, host, ports))
      <==> ShortsTell(netIDs) && forall id :: id in netIDs && id != "" ==> NameIsFreeOrOwn(id, host, n.ports)
  {
    var ports := EnsureHostPorts(n, host, netIDs, format).neutron.ports;
    if forall id :: id in netIDs && id != "" ==> OnOwnNetwork(id, host, ports) {
      EnsureHostPortsBacked(n, host, netIDs, format);
      forall id | id in netIDs && id != ""
        ensures NameIsFreeOrOwn(id, host, n.ports)
      {
        FindStaysIn(n.ports, ports, PortName(host, Short(id)));
      }
    } else if ShortsTell(netIDs) && forall id :: id in netIDs && id != "" ==> NameIsFreeOrOwn(id, host, n.ports) {
      EnsureHostPortsOnOwn(n, host, netIDs, format);
    }
  }

  /** Two networks with the same first eight bytes: the second is given the port of the first. */
  lemma SharedPrefixSharesThePort(host: string, format: NeutronPort -> string)
    ensures var r := EnsureHostPorts(Neutron([], []), host, ["31464df7-a", "31464df7-b"], format);
      r.ok && !OnOwnNetwork("31464df7-b", host, r.neutron.ports)
  {
    var a, b := "31464df7-a", "31464df7-b";
    assert Short(a) == "31464df7" == Short(b);
    EnsurePortFinds(Neutron([], []), host, a);
    var c := EnsurePort(Neutron([], []), host, a);
    FindNamed([], PortName(host, Short(a)));
    FindNamed(c.neutron.ports, PortName(host, Short(b)));
    var none: seq<string> := [];
    assert [a, b][1..] == [b] && [b][1..] == none;
    assert a[9] != b[9];
    var d := EnsurePort(c.neutron, host, b);
    assert d.port == c.port && d.neutron.ports == c.neutron.ports;
    assert EnsureHostPorts(d.neutron, host, [], format).ok;
    assert EnsureHostPorts(c.neutron, host, [b], format).neutron == d.neutron;
  }

  /** A later call for a network that shares the first eight bytes succeeds just as well, creates nothing, and hands
      out the port of the earlier network. */
  lemma LaterCallSharesThePort(
    n: Neutron, host: string, a: string, b: string, replies: seq<ApiReply>, format: NeutronPort -> string)
    requires a != "" && b != "" && a != b && Short(a) == Short(b)
    requires EnsureHostPorts(n, host, [a], format).ok
    requires OnOwnNetwork(a, host, EnsureHostPorts(n, host, [a], format).neutron.ports)
    requires var first := EnsureHostPorts(n, host, [a], format);
      EnsureHostPorts(Neutron(first.neutron.ports, replies), host, [b], format).ok
    ensures var first := EnsureHostPorts(n, host, [a], format);
      var second := EnsureHostPorts(Neutron(first.neutron.ports, replies), host, [b], format);
      && second.neutron.ports == first.neutron.ports && !OnOwnNetwork(b, host, second.neutron.ports)
      && |first.endpoints| == |second.endpoints| == 1
      && second.endpoints[0].portID == first.endpoints[0].portID
      && second.endpoints[0].networkID == b && first.endpoints[0].networkID == a
  {
    var first := EnsureHostPorts(n, host, [a], format);
    var again := Neutron(first.neutron.ports, replies);
    OneNetwork(n, host, a, format);
    OneNetwork(again, host, b, format);
    EnsurePortFinds(n, host, a);
    EnsurePortFinds(again, host, b);
  }

  /** A call for one network is one find-or-create. */
  lemma OneNetwork(n: Neutron, host: string, id: string, format: NeutronPort -> string)
    requires id != ""
    ensures var c, r := EnsurePort(n, host, id), EnsureHostPorts(n, host, [id], format);
      && r.neutron == c.neutron && r.ok == c.port.Some?
      && (r.ok ==> r.endpoints == [EndpointFor(id, c.port.value, format)])
  {
    assert [id][1..] == [];
  }

  /** Two calls, the second for a network that shares the first eight bytes: no list names two such networks, both
      calls succeed, and the second network has no port. */
  lemma SharedPrefixInTwoCalls(host: string, format: NeutronPort -> string)
    ensures var a, b := "31464df7-a", "31464df7-b";
      var first := EnsureHostPorts(Neutron([], []), host, [a], format);
      var second := EnsureHostPorts(first.neutron, host, [b], format);
      && ShortsTell([a]) && ShortsTell([b]) && first.ok && second.ok
      && OnOwnNetwork(a, host, first.neutron.ports) && !OnOwnNetwork(b, host, second.neutron.ports)
  {
    var a, b := "31464df7-a", "31464df7-b";
    assert Short(a) == "31464df7" == Short(b) && a[9] != b[9];
    var n := Neutron([], []);
    OneNetwork(n, host, a, format);
    EnsurePortFinds(n, host, a);
    var first := EnsureHostPorts(n, host, [a], format);
    OneNetwork(first.neutron, host, b, format);
    FindNamed(first.neutron.ports, PortName(host, Short(b)));
    LaterCallSharesThePort(n, host, a, b, first.neutron.replies, format);
  }
}
