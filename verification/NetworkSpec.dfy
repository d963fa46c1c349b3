/** What each function of pkg/network does to the stores, for every schedule of faults. */
module NetworkSpec {
  import opened Api
  import opened Naming
  import opened Kernel
  import opened Command

  function RootKey(a: Names): Key { Key("", a.host) }
  function InnerKey(a: Names): Key { Key(a.ns, a.host) }
  function PeerKey(a: Names): Key { Key("", a.peer) }

  // --- namespaces

  function NetNSExists(s: Sys, name: string): Found {
    var r := Exec(s, NetnsList);
    if r.reply.Err? then Found(r.sys, false, false) else Found(r.sys, name in r.sys.world.netns, true)
  }

  /** netns add, where the answer "File exists" counts as success. */
  function AddNetNS(s: Sys, name: string): Out {
    var r := Exec(s, NetnsAdd(name));
    Out(r.sys, r.reply.Ok? || r.reply.text.FileExists?)
  }

  function EnsureNetNS(s: Sys, name: string): Out {
    var e := NetNSExists(s, name);
    if !e.ok then Out(e.sys, false)
    else
      var a := if e.found then Out(e.sys, true) else AddNetNS(e.sys, name);
      if !a.ok then a else Do(a.sys, LoopbackUp(name))
  }

  function DeleteNetNS(s: Sys, name: string): Out {
    var e := NetNSExists(s, name);
    if !e.ok || !e.found then Out(e.sys, e.ok) else Do(e.sys, NetnsDel(name))
  }

  // --- veth pairs

  function LinkExists(s: Sys, k: Key): Found {
    var r := Exec(s, LinkShow(k));
    if r.reply.Ok? then Found(r.sys, true, true) else Found(r.sys, false, r.reply.text.NoSuchDevice?)
  }

  function MacCmds(k: Key, mac: string): seq<Cmd> { if mac == "" then [] else [SetMac(k, mac)] }
  function AddrCmds(k: Key, ip: string): seq<Cmd> { if ip == "" then [] else [AddrReplace(k, ip)] }

  /** Creates the pair in the root namespace unless the host end is already there. */
  function EnsureInRoot(s: Sys, a: Names): Out {
    var e := LinkExists(s, RootKey(a));
    if !e.ok then Out(e.sys, false)
    else if e.found then Out(e.sys, true)
    else Do(e.sys, LinkAdd(a.host, a.peer))
  }

  /** Brings the host end into its namespace from wherever an earlier run left it. */
  function EnsureInNetNS(s: Sys, a: Names): Out {
    var e := LinkExists(s, InnerKey(a));
    if !e.ok then Out(e.sys, false)
    else if e.found then Out(e.sys, true)
    else
      var r := EnsureInRoot(e.sys, a);
      if !r.ok then r else Do(r.sys, LinkMove(a.host, a.ns))
  }

  function RootConfig(a: Names, mac: string, ip: string): seq<Cmd> {
    MacCmds(RootKey(a), mac) + ([SetUp(RootKey(a)), SetUp(PeerKey(a))] + AddrCmds(RootKey(a), ip))
  }

  function InnerConfig(a: Names, mac: string, ip: string): seq<Cmd> {
    MacCmds(InnerKey(a), mac) + ([SetUp(InnerKey(a))] + (AddrCmds(InnerKey(a), ip) + [SetUp(PeerKey(a))]))
  }

  function EnsureVethPair(s: Sys, a: Names, mac: string, ip: string): Out {
    var placed := if a.ns == "" then EnsureInRoot(s, a) else EnsureInNetNS(s, a);
    if !placed.ok then placed
    else Script(placed.sys, if a.ns == "" then RootConfig(a, mac, ip) else InnerConfig(a, mac, ip))
  }

  /** Deletes one end, if the agent can see it. */
  function DeleteVethPair(s: Sys, a: Names): Out {
    var p := if a.peer == "" then Found(s, false, true) else LinkExists(s, PeerKey(a));
    if p.found then Do(p.sys, LinkDel(PeerKey(a)))
    else
      var h := LinkExists(p.sys, InnerKey(a));
      if h.found then Do(h.sys, LinkDel(InnerKey(a))) else Out(h.sys, true)
  }

  // --- Open vSwitch

  function PortCmds(bridge: string, port: string, id: string): seq<Cmd> {
    [AddPort(bridge, port)] + (if id == "" then [] else [SetIfaceID(port, id)])
  }

  /** The configuration scripts, cut where the source may return. */
  lemma ScriptOfRoot(s: Sys, a: Names, mac: string, ip: string)
    ensures
      var m := if mac == "" then Out(s, true) else Do(s, SetMac(RootKey(a), mac));
      var u := Do(m.sys, SetUp(RootKey(a)));
      var p := Do(u.sys, SetUp(PeerKey(a)));
      var i := if ip == "" then Out(p.sys, true) else Do(p.sys, AddrReplace(RootKey(a), ip));
      Script(s, RootConfig(a, mac, ip)) == if !m.ok then m else if !u.ok then u else if !p.ok then p else i
  {
    var up, peer, addr := [SetUp(RootKey(a))], [SetUp(PeerKey(a))], AddrCmds(RootKey(a), ip);
    var m := Script(s, MacCmds(RootKey(a), mac));
    ScriptConcat(s, MacCmds(RootKey(a), mac), up + peer + addr);
    ScriptConcat(m.sys, up + peer, addr);
    ScriptConcat(m.sys, up, peer);
    var u := Do(m.sys, SetUp(RootKey(a)));
    var p := Do(u.sys, SetUp(PeerKey(a)));
    ScriptOne(s, SetMac(RootKey(a), mac));
    ScriptOne(m.sys, SetUp(RootKey(a)));
    ScriptOne(u.sys, SetUp(PeerKey(a)));
    ScriptOne(p.sys, AddrReplace(RootKey(a), ip));
    assert [SetUp(RootKey(a)), SetUp(PeerKey(a))] == up + peer;
  }

  lemma ScriptOfInner(s: Sys, a: Names, mac: string, ip: string)
    ensures
      var m := if mac == "" then Out(s, true) else Do(s, SetMac(InnerKey(a), mac));
      var u := Do(m.sys, SetUp(InnerKey(a)));
      var i := if ip == "" then Out(u.sys, true) else Do(u.sys, AddrReplace(InnerKey(a), ip));
      var p := Do(i.sys, SetUp(PeerKey(a)));
      Script(s, InnerConfig(a, mac, ip)) == if !m.ok then m else if !u.ok then u else if !i.ok then i else p
  {
    var up, peer, addr := [SetUp(InnerKey(a))], [SetUp(PeerKey(a))], AddrCmds(InnerKey(a), ip);
    var m := Script(s, MacCmds(InnerKey(a), mac));
    ScriptConcat(s, MacCmds(InnerKey(a), mac), up + (addr + peer));
    ScriptConcat(m.sys, up, addr + peer);
    var u := Do(m.sys, SetUp(InnerKey(a)));
    ScriptConcat(u.sys, addr, peer);
    var i := Script(u.sys, addr);
    ScriptOne(s, SetMac(InnerKey(a), mac));
    ScriptOne(m.sys, SetUp(InnerKey(a)));
    ScriptOne(u.sys, AddrReplace(InnerKey(a), ip));
    ScriptOne(i.sys, SetUp(PeerKey(a)));
  }

  lemma ScriptOfPort(s: Sys, bridge: string, port: string, id: string)
    ensures
      var p := Do(s, AddPort(bridge, port));
      Script(s, PortCmds(bridge, port, id)) == if !p.ok || id == "" then p else Do(p.sys, SetIfaceID(port, id))
  {
    ScriptOne(s, AddPort(bridge, port));
    ScriptOne(Do(s, AddPort(bridge, port)).sys, SetIfaceID(port, id));
    ScriptConcat(s, [AddPort(bridge, port)], if id == "" then [] else [SetIfaceID(port, id)]);
  }

  // --- the network manager

  type Active = map<string, HostNetworkEndpoint>

  function Fill(ep: HostNetworkEndpoint): HostNetworkEndpoint { ep.(netNS := EffectiveNetNS(ep)) }

  function EnsureEndpoint(s: Sys, bridge: string, ep: HostNetworkEndpoint): Out {
    var a := NamesOf(ep);
    var n := if a.ns == "" then Out(s, true) else EnsureNetNS(s, a.ns);
    if !n.ok then n
    else
      var v := EnsureVethPair(n.sys, a, ep.mac, ep.ip);
      if !v.ok then v else Script(v.sys, PortCmds(bridge, a.peer, ep.portID))
  }

  datatype Ensured = Ensured(sys: Sys, desired: Active, ok: bool)

  function EnsureAll(s: Sys, bridge: string, eps: seq<HostNetworkEndpoint>, desired: Active): Ensured
    decreases eps
  {
    if eps == [] then Ensured(s, desired, true)
    else if eps[0].vethName == "" then EnsureAll(s, bridge, eps[1..], desired)
    else
      var e := EnsureEndpoint(s, bridge, eps[0]);
      if !e.ok then Ensured(e.sys, desired, false)
      else EnsureAll(e.sys, bridge, eps[1..], desired[eps[0].vethName := Fill(eps[0])])
  }

  /** The three deletions; their errors are ignored. */
  function RemoveEndpoint(s: Sys, bridge: string, hostIf: string, ep: HostNetworkEndpoint): Sys {
    var a := Names(hostIf, PeerIfName(ep.vethName), ep.netNS);
    var p := Exec(s, DelPort(bridge, a.peer)).sys;
    var v := DeleteVethPair(p, a).sys;
    if ep.netNS == "" then v else DeleteNetNS(v, ep.netNS).sys
  }

  /** Goes through the tracked endpoints in the given order and removes those not desired. */
  function RemoveStale(s: Sys, bridge: string, active: Active, desired: Active, order: seq<string>): Sys
    decreases order
  {
    if order == [] then s
    else
      var n := |order| - 1;
      var t := RemoveStale(s, bridge, active, desired, order[..n]);
      var h := order[n];
      if h in active && h !in desired then RemoveEndpoint(t, bridge, h, active[h]) else t
  }

  datatype Reconciled = Reconciled(sys: Sys, active: Active, ok: bool)

  function Reconcile(s: Sys, bridge: string, active: Active, eps: seq<HostNetworkEndpoint>, order: seq<string>)
    : Reconciled
  {
    var e := EnsureAll(s, bridge, eps, map[]);
    if !e.ok then Reconciled(e.sys, active, false)
    else Reconciled(RemoveStale(e.sys, bridge, active, e.desired, order), e.desired, true)
  }
}
