/** What a call that returns no error has done, and that a call without faults returns no error. */
module Convergence {
  import opened Api
  import opened Naming
  import opened Kernel
  import opened Command
  import opened NetworkSpec
  import opened Placement

  /** The stores as one endpoint wants them, read off the view of its names. */
  predicate Reached(v: View, ep: HostNetworkEndpoint, bridge: string) {
    && v.ns == Some(true)
    && v.root == None
    && v.inner.Some? && v.inner.value.up
    && (ep.mac != "" ==> v.inner.value.mac == Some(ep.mac))
    && (ep.ip != "" ==> ep.ip in v.inner.value.addrs)
    && v.peer.Some? && v.peer.value.up
    && v.inner.value.peer == Some(PeerKey(NamesOf(ep)))
    && v.peer.value.peer == Some(InnerKey(NamesOf(ep)))
    && v.port.Some? && v.port.value.bridge == bridge
    && (ep.portID != "" ==> v.port.value.ifaceID == Some(ep.portID))
  }

  predicate Goal(w: World, ep: HostNetworkEndpoint, bridge: string) {
    Reached(ViewOf(w, NamesOf(ep)), ep, bridge)
  }

  // --- a closed form of ensuring one endpoint

  /** The link that ends up as host end: the one in the namespace, else the one in root, else a new one. */
  function HostBase(w: World, a: Names): Link {
    if InnerKey(a) in w.links then w.links[InnerKey(a)]
    else if RootKey(a) in w.links then w.links[RootKey(a)].(addrs := {})
    else Link(None, false, {}, Some(PeerKey(a)))
  }

  function HostEnd(w: World, a: Names, mac: string, ip: string): Link {
    var base := HostBase(w, a);
    Link(if mac == "" then base.mac else Some(mac), true,
         if ip == "" then base.addrs else base.addrs + {ip}, Some(PeerKey(a)))
  }

  function PeerEnd(w: World, a: Names): Link {
    Link(if PeerKey(a) in w.links then w.links[PeerKey(a)].mac else None, true, {}, Some(InnerKey(a)))
  }

  function PortRow(w: World, a: Names, bridge: string, id: string): OvsPort {
    OvsPort(bridge, if id != "" then Some(id) else if a.peer in w.ports then w.ports[a.peer].ifaceID else None)
  }

  function SettleLinks(w: World, a: Names, mac: string, ip: string): map<Key, Link> {
    (w.links - {RootKey(a)})[InnerKey(a) := HostEnd(w, a, mac, ip)][PeerKey(a) := PeerEnd(w, a)]
  }

  function Settle(w: World, bridge: string, ep: HostNetworkEndpoint): World {
    var a := NamesOf(ep);
    World(w.netns[a.ns := true], SettleLinks(w, a, ep.mac, ep.ip), w.bridges,
          w.ports[a.peer := PortRow(w, a, bridge, ep.portID)])
  }

  // --- what one step tells, whatever the faults

  ghost predicate Does(s: Sys, c: Cmd, o: Out) {
    && (o.ok ==> Accepts(s.world, c) && o.sys.world == Effect(s.world, c))
    && (s.faults == [] ==> o.sys.faults == [] && (o.ok <==> Accepts(s.world, c)))
    && (s.faults == [] && !o.ok ==> o.sys.world == s.world)
  }

  ghost predicate Looks(s: Sys, k: Key, f: Found) {
    && (f.found ==> f.ok && k in s.world.links)
    && f.sys.world == s.world
    && (s.faults == [] ==> f.sys.faults == [] && (f.found <==> k in s.world.links))
    && (s.faults == [] && (k.ns == "" || k.ns in s.world.netns) ==> f.ok)
  }

  lemma DoDoes(s: Sys, c: Cmd)
    ensures Does(s, c, Do(s, c))
  {
  }

  lemma LinkExistsLooks(s: Sys, k: Key)
    ensures Looks(s, k, LinkExists(s, k))
  {
  }

  lemma EnsureNetNSDone(s: Sys, a: Names)
    requires a.ns != ""
    ensures var r := EnsureNetNS(s, a.ns);
      && (r.ok ==> r.sys.world == s.world.(netns := s.world.netns[a.ns := true]))
      && (s.faults == [] ==> r.ok && r.sys.faults == [])
  {
    var n := s.world.netns;
    assert n[a.ns := false][a.ns := true] == n[a.ns := true];
  }

  /** The pair once its host end is in the namespace, and nothing else changed. */
  function Home(w: World, a: Names): World {
    w.(links := (w.links - {RootKey(a)})
                [InnerKey(a) := if InnerKey(a) in w.links then w.links[InnerKey(a)] else HostBase(w, a).(up := false)]
                [PeerKey(a) := if PeerKey(a) in w.links
                               then w.links[PeerKey(a)].(peer := Some(InnerKey(a)))
                               else Link(None, false, {}, Some(InnerKey(a)))])
  }

  lemma HomeByMove(w: World, a: Names, bridge: string)
    requires Sound(a) && WellFormed(w) && Placed(w, a, bridge)
    requires RootKey(a) in w.links && a.ns in w.netns
    ensures Accepts(w, LinkMove(a.host, a.ns)) && Effect(w, LinkMove(a.host, a.ns)) == Home(w, a)
  {
    assert Effect(w, LinkMove(a.host, a.ns)).links == Home(w, a).links;
  }

  lemma HomeByAdd(w: World, a: Names, bridge: string)
    requires Sound(a) && WellFormed(w) && Placed(w, a, bridge)
    requires RootKey(a) !in w.links && InnerKey(a) !in w.links
    ensures Accepts(w, LinkAdd(a.host, a.peer))
    ensures var v := Effect(w, LinkAdd(a.host, a.peer));
      WellFormed(v) && Placed(v, a, bridge) && RootKey(a) in v.links && v.netns == w.netns
      && Home(v, a) == Home(w, a)
  {
    var v := Effect(w, LinkAdd(a.host, a.peer));
    ApplyKeepsWellFormed(w, LinkAdd(a.host, a.peer));
    CommandKeepsPlaced(w, LinkAdd(a.host, a.peer), a, a, bridge);
    assert Home(v, a).links == Home(w, a).links;
  }

  lemma HomeAlready(w: World, a: Names, bridge: string)
    requires Sound(a) && Placed(w, a, bridge) && InnerKey(a) in w.links
    ensures Home(w, a) == w
  {
    assert Home(w, a).links == w.links;
  }

  lemma EnsureInNetNSDone(s: Sys, a: Names, bridge: string)
    requires Sound(a) && WellFormed(s.world) && Placed(s.world, a, bridge)
    ensures var r := EnsureInNetNS(s, a);
      && (r.ok ==> r.sys.world == Home(s.world, a))
      && (s.faults == [] && a.ns in s.world.netns ==> r.ok && r.sys.faults == [])
  {
    var inside := LinkExists(s, InnerKey(a));
    var outside := LinkExists(inside.sys, RootKey(a));
    var added := Do(outside.sys, LinkAdd(a.host, a.peer));
    var here := if outside.found then outside.sys else added.sys;
    var moved := Do(here, LinkMove(a.host, a.ns));
    LinkExistsLooks(s, InnerKey(a));
    LinkExistsLooks(inside.sys, RootKey(a));
    DoDoes(outside.sys, LinkAdd(a.host, a.peer));
    DoDoes(here, LinkMove(a.host, a.ns));
    HomeInSteps(s, inside, outside, added, moved, a, bridge);
  }

  /** The recovery branches: inside already, in root only, or nowhere. */
  lemma HomeInSteps(s: Sys, inside: Found, outside: Found, added: Out, moved: Out, a: Names, bridge: string)
    requires Sound(a) && WellFormed(s.world) && Placed(s.world, a, bridge)
    requires Looks(s, InnerKey(a), inside) && Looks(inside.sys, RootKey(a), outside)
    requires Does(outside.sys, LinkAdd(a.host, a.peer), added)
    requires Does(if outside.found then outside.sys else added.sys, LinkMove(a.host, a.ns), moved)
    ensures
      var r :=
        if !inside.ok then Out(inside.sys, false) else if inside.found then Out(inside.sys, true)
        else if !outside.ok then Out(outside.sys, false)
        else if !outside.found && !added.ok then added else moved;
      && (r.ok ==> r.sys.world == Home(s.world, a))
      && (s.faults == [] && a.ns in s.world.netns ==> r.ok && r.sys.faults == [])
  {
    var w := s.world;
    if InnerKey(a) in w.links {
      HomeAlready(w, a, bridge);
    } else if RootKey(a) in w.links {
      if a.ns in w.netns {
        HomeByMove(w, a, bridge);
      }
    } else {
      HomeByAdd(w, a, bridge);
      if a.ns in w.netns {
        HomeByMove(Effect(w, LinkAdd(a.host, a.peer)), a, bridge);
      }
    }
  }

  /** Both ends configured, whatever they were. */
  function Configured(w: World, a: Names, mac: string, ip: string): World
    requires InnerKey(a) in w.links && PeerKey(a) in w.links
  {
    var h, p := w.links[InnerKey(a)], w.links[PeerKey(a)];
    w.(links := w.links[InnerKey(a) := Link(if mac == "" then h.mac else Some(mac), true,
                                            if ip == "" then h.addrs else h.addrs + {ip}, h.peer)]
                       [PeerKey(a) := p.(up := true)])
  }

  ghost predicate Configures(s: Sys, a: Names, mac: string, ip: string, r: Out) {
    var there := InnerKey(a) in s.world.links && PeerKey(a) in s.world.links;
    && (r.ok ==> there && r.sys.world == Configured(s.world, a, mac, ip))
    && (s.faults == [] && there ==> r.ok && r.sys.faults == [])
  }

  lemma InnerConfigDone(s: Sys, a: Names, mac: string, ip: string)
    requires Sound(a)
    ensures Configures(s, a, mac, ip, Script(s, InnerConfig(a, mac, ip)))
  {
    var m := if mac == "" then Out(s, true) else Do(s, SetMac(InnerKey(a), mac));
    var u := Do(m.sys, SetUp(InnerKey(a)));
    var i := if ip == "" then Out(u.sys, true) else Do(u.sys, AddrReplace(InnerKey(a), ip));
    var p := Do(i.sys, SetUp(PeerKey(a)));
    DoDoes(s, SetMac(InnerKey(a), mac));
    DoDoes(m.sys, SetUp(InnerKey(a)));
    DoDoes(u.sys, AddrReplace(InnerKey(a), ip));
    DoDoes(i.sys, SetUp(PeerKey(a)));
    ConfigInSteps(s, m, u, i, p, a, mac, ip);
    ScriptOfInner(s, a, mac, ip);
  }

  lemma ConfigInSteps(s: Sys, m: Out, u: Out, i: Out, p: Out, a: Names, mac: string, ip: string)
    requires Sound(a)
    requires if mac == "" then m == Out(s, true) else Does(s, SetMac(InnerKey(a), mac), m)
    requires Does(m.sys, SetUp(InnerKey(a)), u)
    requires if ip == "" then i == Out(u.sys, true) else Does(u.sys, AddrReplace(InnerKey(a), ip), i)
    requires Does(i.sys, SetUp(PeerKey(a)), p)
    ensures Configures(s, a, mac, ip, if !m.ok then m else if !u.ok then u else if !i.ok then i else p)
  {
    if m.ok && u.ok && i.ok && p.ok {
      assert p.sys.world.links == Configured(s.world, a, mac, ip).links;
    }
  }

  lemma PortCmdsDone(s: Sys, a: Names, bridge: string, id: string)
    ensures var r := Script(s, PortCmds(bridge, a.peer, id));
      && (r.ok ==> r.sys.world == s.world.(ports := s.world.ports[a.peer := PortRow(s.world, a, bridge, id)]))
      && (s.faults == [] && bridge in s.world.bridges
            && (a.peer in s.world.ports ==> s.world.ports[a.peer].bridge == bridge) ==>
            r.ok && r.sys.faults == [])
  {
    ScriptOfPort(s, bridge, a.peer, id);
  }

  lemma EnsureVethPairDone(s: Sys, a: Names, mac: string, ip: string, bridge: string)
    requires Sound(a) && WellFormed(s.world) && Placed(s.world, a, bridge)
    ensures var r := EnsureVethPair(s, a, mac, ip);
      && (r.ok ==> r.sys.world == s.world.(links := SettleLinks(s.world, a, mac, ip)))
      && (s.faults == [] && a.ns in s.world.netns ==> r.ok && r.sys.faults == [])
  {
    EnsureInNetNSDone(s, a, bridge);
    var p := EnsureInNetNS(s, a);
    InnerConfigDone(p.sys, a, mac, ip);
    HomeThenConfigured(s.world, a, mac, ip, bridge);
  }

  lemma HomeThenConfigured(w: World, a: Names, mac: string, ip: string, bridge: string)
    requires Sound(a) && Placed(w, a, bridge)
    ensures var h := Home(w, a);
      && InnerKey(a) in h.links && PeerKey(a) in h.links
      && Configured(h, a, mac, ip) == w.(links := SettleLinks(w, a, mac, ip))
  {
    assert Configured(Home(w, a), a, mac, ip).links == SettleLinks(w, a, mac, ip);
  }

  /** The namespace, the links and the port row are settled in turn, each stage leaving the others alone. */
  predicate StagesDone(w: World, n: World, v: World, o: World, bridge: string, ep: HostNetworkEndpoint) {
    var a := NamesOf(ep);
    && n == w.(netns := w.netns[a.ns := true])
    && v == n.(links := SettleLinks(n, a, ep.mac, ep.ip))
    && o == v.(ports := v.ports[a.peer := PortRow(v, a, bridge, ep.portID)])
  }

  lemma StagesSettle(w: World, n: World, v: World, o: World, bridge: string, ep: HostNetworkEndpoint)
    ensures StagesDone(w, n, v, o, bridge, ep) ==> o == Settle(w, bridge, ep)
  {
  }

  /** Whatever faults were tolerated on the way, a nil error means that the endpoint was settled exactly:
      every branch of the recovery code amounts to one closed form. Without faults there is no error. */
  lemma EnsureEndpointDone(s: Sys, bridge: string, ep: HostNetworkEndpoint)
    requires Sound(NamesOf(ep)) && WellFormed(s.world) && Placed(s.world, NamesOf(ep), bridge)
    ensures var r := EnsureEndpoint(s, bridge, ep);
      && (r.ok ==> r.sys.world == Settle(s.world, bridge, ep))
      && (s.faults == [] && bridge in s.world.bridges ==> r.ok && r.sys.faults == [])
  {
    var a := NamesOf(ep);
    EnsureNetNSDone(s, a);
    var n := EnsureNetNS(s, a.ns);
    if n.ok {
      EnsureVethPairDone(n.sys, a, ep.mac, ep.ip, bridge);
      var v := EnsureVethPair(n.sys, a, ep.mac, ep.ip);
      if v.ok {
        PortCmdsDone(v.sys, a, bridge, ep.portID);
        StagesSettle(s.world, n.sys.world, v.sys.world, EnsureEndpoint(s, bridge, ep).sys.world, bridge, ep);
      }
    }
  }

  lemma SettleReachesGoal(w: World, bridge: string, ep: HostNetworkEndpoint)
    requires Sound(NamesOf(ep))
    ensures Goal(Settle(w, bridge, ep), ep, bridge)
  {
  }

  /** Old addresses stay on a host end that is already in its namespace. */
  lemma AddressesAccumulate(s: Sys, bridge: string, ep: HostNetworkEndpoint)
    requires Sound(NamesOf(ep)) && WellFormed(s.world) && Placed(s.world, NamesOf(ep), bridge)
    requires EnsureEndpoint(s, bridge, ep).ok && InnerKey(NamesOf(ep)) in s.world.links
    ensures var k, v := InnerKey(NamesOf(ep)), EnsureEndpoint(s, bridge, ep).sys.world;
      k in v.links && v.links[k].addrs
        == s.world.links[k].addrs + (if ep.ip == "" then {} else {ep.ip})
  {
    EnsureEndpointDone(s, bridge, ep);
  }

  // --- removal

  function Cleared(w: World, a: Names): World {
    World(w.netns - {a.ns}, w.links - {RootKey(a), InnerKey(a), PeerKey(a)}, w.bridges, w.ports - {a.peer})
  }

  /** Without faults a removal leaves nothing under the names and touches nothing else. */
  lemma RemoveEndpointClears(s: Sys, bridge: string, ep: HostNetworkEndpoint)
    requires Sound(NamesOf(ep)) && ep.netNS != ""
    requires WellFormed(s.world) && Placed(s.world, NamesOf(ep), bridge) && bridge in s.world.bridges
    requires s.faults == []
    ensures var t := RemoveEndpoint(s, bridge, ep.vethName, ep);
      t.faults == [] && t.world == Cleared(s.world, NamesOf(ep))
  {
    var a := NamesOf(ep);
    var p := Do(s, DelPort(bridge, a.peer)).sys;
    DoDoes(s, DelPort(bridge, a.peer));
    assert Exec(s, DelPort(bridge, a.peer)).sys == p;
    DeleteVethPairClears(p, a, bridge);
    DeleteNetNSClears(DeleteVethPair(p, a).sys, a);
  }

  lemma DeleteNetNSClears(s: Sys, a: Names)
    requires s.faults == [] && forall k :: k in s.world.links ==> !DiesWith(s.world, k, a.ns)
    ensures var t := DeleteNetNS(s, a.ns).sys;
      t.faults == [] && t.world == s.world.(netns := s.world.netns - {a.ns})
  {
    var t := DeleteNetNS(s, a.ns).sys;
    assert t.world.netns == s.world.netns - {a.ns};
    assert t.world.links == s.world.links;
  }

  lemma DeleteVethPairClears(s: Sys, a: Names, bridge: string)
    requires Sound(a) && WellFormed(s.world) && Placed(s.world, a, bridge) && s.faults == []
    ensures var t := DeleteVethPair(s, a).sys;
      && t.faults == [] && t.world == s.world.(links := s.world.links - {RootKey(a), InnerKey(a), PeerKey(a)})
      && forall k :: k in t.world.links ==> !DiesWith(t.world, k, a.ns)
  {
    var t := DeleteVethPair(s, a).sys;
    assert t.world.links == s.world.links - {RootKey(a), InnerKey(a), PeerKey(a)};
  }

  // --- the root branch, used when an endpoint names neither a namespace nor a network

  /** Both names are there, or the pair can be made. A root namespace with just one of the two names is not mended:
      the source looks at the host end alone. */
  predicate RootCanDo(w: World, host: string, peer: string) {
    if Key("", host) in w.links then Key("", peer) in w.links else Accepts(w, LinkAdd(host, peer))
  }

  /** Without a namespace the pair is created, configured and left in the root namespace; and without faults it
      succeeds exactly if it can. */
  lemma EnsureVethPairInRoot(s: Sys, host: string, peer: string, mac: string, ip: string)
    ensures var r := EnsureVethPair(s, Names(host, peer, ""), mac, ip); var w := r.sys.world;
      && (r.ok ==> RootConfigured(s.world, w, Names(host, peer, ""), mac, ip) && RootCanDo(s.world, host, peer))
      && (s.faults == [] ==> (r.ok <==> RootCanDo(s.world, host, peer)))
  {
    var a := Names(host, peer, "");
    var e := LinkExists(s, RootKey(a));
    var added := Do(e.sys, LinkAdd(host, peer));
    var p := EnsureInRoot(s, a);
    LinkExistsLooks(s, RootKey(a));
    DoDoes(e.sys, LinkAdd(host, peer));
    var m := if mac == "" then Out(p.sys, true) else Do(p.sys, SetMac(RootKey(a), mac));
    var u := Do(m.sys, SetUp(RootKey(a)));
    var q := Do(u.sys, SetUp(PeerKey(a)));
    var i := if ip == "" then Out(q.sys, true) else Do(q.sys, AddrReplace(RootKey(a), ip));
    DoDoes(p.sys, SetMac(RootKey(a), mac));
    DoDoes(m.sys, SetUp(RootKey(a)));
    DoDoes(u.sys, SetUp(PeerKey(a)));
    DoDoes(q.sys, AddrReplace(RootKey(a), ip));
    ScriptOfRoot(p.sys, a, mac, ip);
    RootStepsSucceed(s, e, added, p, m, u, q, i, a, mac, ip);
    if p.ok && m.ok && u.ok && q.ok && i.ok {
      RootStepsConfigure(s, e, added, p, m, u, q, i, a, mac, ip);
    }
  }

  ghost predicate RootConfigured(w: World, v: World, a: Names, mac: string, ip: string) {
    && RootKey(a) in v.links && PeerKey(a) in v.links
    && v.links[RootKey(a)].up && v.links[PeerKey(a)].up
    && (mac != "" ==> v.links[RootKey(a)].mac == Some(mac))
    && (ip != "" ==> ip in v.links[RootKey(a)].addrs)
    && (forall k :: k != RootKey(a) && k != PeerKey(a) ==> At(v.links, k) == At(w.links, k))
  }

  /** The steps of the root branch, each run on the outcome of the one before. */
  ghost predicate RootSteps(s: Sys, e: Found, added: Out, p: Out, m: Out, u: Out, q: Out, i: Out,
                            a: Names, mac: string, ip: string)
  {
    && Looks(s, RootKey(a), e) && Does(e.sys, LinkAdd(a.host, a.peer), added)
    && p == (if !e.ok then Out(e.sys, false) else if e.found then Out(e.sys, true) else added)
    && (if mac == "" then m == Out(p.sys, true) else Does(p.sys, SetMac(RootKey(a), mac), m))
    && Does(m.sys, SetUp(RootKey(a)), u) && Does(u.sys, SetUp(PeerKey(a)), q)
    && (if ip == "" then i == Out(q.sys, true) else Does(q.sys, AddrReplace(RootKey(a), ip), i))
  }

  lemma RootStepsConfigure(s: Sys, e: Found, added: Out, p: Out, m: Out, u: Out, q: Out, i: Out,
                           a: Names, mac: string, ip: string)
    requires RootSteps(s, e, added, p, m, u, q, i, a, mac, ip) && p.ok && m.ok && u.ok && q.ok && i.ok
    ensures RootConfigured(s.world, i.sys.world, a, mac, ip)
  {
  }

  lemma RootStepsSucceed(s: Sys, e: Found, added: Out, p: Out, m: Out, u: Out, q: Out, i: Out,
                         a: Names, mac: string, ip: string)
    requires RootSteps(s, e, added, p, m, u, q, i, a, mac, ip)
    ensures p.ok && m.ok && u.ok && q.ok && i.ok ==> RootCanDo(s.world, a.host, a.peer)
    ensures s.faults == [] && RootCanDo(s.world, a.host, a.peer) ==> p.ok && m.ok && u.ok && q.ok && i.ok
  {
  }
}
