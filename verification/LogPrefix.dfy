/** What was issued before a call does not change the call: the functions of NetworkSpec only append to the log.
    So the runs of Runs, in which each call starts with an empty log, speak of a manager at any time of its life. */
module LogPrefix {
  import opened Api
  import opened Naming
  import opened Kernel
  import opened Command
  import opened NetworkSpec
  import opened Runs

  /** The same state with more commands issued before. */
  function Late(s: Sys, past: seq<Event>): Sys { s.(log := past + s.log) }

  function LateOut(o: Out, past: seq<Event>): Out { o.(sys := Late(o.sys, past)) }

  function LateFound(f: Found, past: seq<Event>): Found { f.(sys := Late(f.sys, past)) }

  lemma ExecLate(s: Sys, past: seq<Event>, c: Cmd)
    ensures Exec(Late(s, past), c) == Ran(Late(Exec(s, c).sys, past), Exec(s, c).reply)
    ensures Do(Late(s, past), c) == LateOut(Do(s, c), past)
  {
    var e := Exec(s, c).sys.log[|s.log|];
    assert past + s.log + [e] == past + (s.log + [e]);
  }

  lemma {:induction false} ScriptLate(s: Sys, past: seq<Event>, cs: seq<Cmd>)
    ensures Script(Late(s, past), cs) == LateOut(Script(s, cs), past)
    decreases cs
  {
    if cs != [] {
      ExecLate(s, past, cs[0]);
      ScriptLate(Do(s, cs[0]).sys, past, cs[1..]);
    }
  }

  lemma LooksLate(s: Sys, past: seq<Event>, name: string, k: Key)
    ensures NetNSExists(Late(s, past), name) == LateFound(NetNSExists(s, name), past)
    ensures LinkExists(Late(s, past), k) == LateFound(LinkExists(s, k), past)
  {
    ExecLate(s, past, NetnsList);
    ExecLate(s, past, LinkShow(k));
  }

  lemma NetNSLate(s: Sys, past: seq<Event>, name: string)
    ensures EnsureNetNS(Late(s, past), name) == LateOut(EnsureNetNS(s, name), past)
    ensures DeleteNetNS(Late(s, past), name) == LateOut(DeleteNetNS(s, name), past)
  {
    var e := NetNSExists(s, name);
    LooksLate(s, past, name, Key("", name));
    ExecLate(e.sys, past, NetnsAdd(name));
    ExecLate(e.sys, past, NetnsDel(name));
    ExecLate(e.sys, past, LoopbackUp(name));
    ExecLate(AddNetNS(e.sys, name).sys, past, LoopbackUp(name));
  }

  lemma EnsureInRootLate(s: Sys, past: seq<Event>, a: Names)
    ensures EnsureInRoot(Late(s, past), a) == LateOut(EnsureInRoot(s, a), past)
  {
    LooksLate(s, past, "", RootKey(a));
    ExecLate(LinkExists(s, RootKey(a)).sys, past, LinkAdd(a.host, a.peer));
  }

  lemma EnsureInNetNSLate(s: Sys, past: seq<Event>, a: Names)
    ensures EnsureInNetNS(Late(s, past), a) == LateOut(EnsureInNetNS(s, a), past)
  {
    var e := LinkExists(s, InnerKey(a));
    LooksLate(s, past, "", InnerKey(a));
    EnsureInRootLate(e.sys, past, a);
    ExecLate(EnsureInRoot(e.sys, a).sys, past, LinkMove(a.host, a.ns));
  }

  lemma EnsureVethPairLate(s: Sys, past: seq<Event>, a: Names, mac: string, ip: string)
    ensures EnsureVethPair(Late(s, past), a, mac, ip) == LateOut(EnsureVethPair(s, a, mac, ip), past)
  {
    var placed := if a.ns == "" then EnsureInRoot(s, a) else EnsureInNetNS(s, a);
    EnsureInRootLate(s, past, a);
    EnsureInNetNSLate(s, past, a);
    ScriptLate(placed.sys, past, if a.ns == "" then RootConfig(a, mac, ip) else InnerConfig(a, mac, ip));
  }

  lemma DeleteVethPairLate(s: Sys, past: seq<Event>, a: Names)
    ensures DeleteVethPair(Late(s, past), a) == LateOut(DeleteVethPair(s, a), past)
  {
    var p := if a.peer == "" then Found(s, false, true) else LinkExists(s, PeerKey(a));
    var h := LinkExists(p.sys, InnerKey(a));
    LooksLate(s, past, "", PeerKey(a));
    ExecLate(p.sys, past, LinkDel(PeerKey(a)));
    LooksLate(p.sys, past, "", InnerKey(a));
    ExecLate(h.sys, past, LinkDel(InnerKey(a)));
  }

  lemma EnsureEndpointLate(s: Sys, past: seq<Event>, bridge: string, ep: HostNetworkEndpoint)
    ensures EnsureEndpoint(Late(s, past), bridge, ep) == LateOut(EnsureEndpoint(s, bridge, ep), past)
  {
    var a := NamesOf(ep);
    var n := if a.ns == "" then Out(s, true) else EnsureNetNS(s, a.ns);
    var v := EnsureVethPair(n.sys, a, ep.mac, ep.ip);
    NetNSLate(s, past, a.ns);
    EnsureVethPairLate(n.sys, past, a, ep.mac, ep.ip);
    ScriptLate(v.sys, past, PortCmds(bridge, a.peer, ep.portID));
  }

  lemma {:induction false} EnsureAllLate(
    s: Sys, past: seq<Event>, bridge: string, eps: seq<HostNetworkEndpoint>, desired: Active)
    ensures var r := EnsureAll(s, bridge, eps, desired);
      EnsureAll(Late(s, past), bridge, eps, desired) == r.(sys := Late(r.sys, past))
    decreases eps
  {
    if eps != [] {
      if eps[0].vethName == "" {
        EnsureAllLate(s, past, bridge, eps[1..], desired);
      } else {
        EnsureEndpointLate(s, past, bridge, eps[0]);
        EnsureAllLate(EnsureEndpoint(s, bridge, eps[0]).sys, past, bridge, eps[1..],
          desired[eps[0].vethName := Fill(eps[0])]);
      }
    }
  }

  lemma RemoveEndpointLate(s: Sys, past: seq<Event>, bridge: string, hostIf: string, ep: HostNetworkEndpoint)
    ensures RemoveEndpoint(Late(s, past), bridge, hostIf, ep) == Late(RemoveEndpoint(s, bridge, hostIf, ep), past)
  {
    var a := Names(hostIf, PeerIfName(ep.vethName), ep.netNS);
    var p := Exec(s, DelPort(bridge, a.peer)).sys;
    ExecLate(s, past, DelPort(bridge, a.peer));
    DeleteVethPairLate(p, past, a);
    NetNSLate(DeleteVethPair(p, a).sys, past, ep.netNS);
  }

  lemma {:induction false} RemoveStaleLate(
    s: Sys, past: seq<Event>, bridge: string, active: Active, desired: Active, order: seq<string>)
    ensures RemoveStale(Late(s, past), bridge, active, desired, order)
      == Late(RemoveStale(s, bridge, active, desired, order), past)
    decreases order
  {
    if order != [] {
      var n := |order| - 1;
      RemoveStaleLate(s, past, bridge, active, desired, order[..n]);
      var t := RemoveStale(s, bridge, active, desired, order[..n]);
      if order[n] in active {
        RemoveEndpointLate(t, past, bridge, order[n], active[order[n]]);
      }
    }
  }

  /** A reconcile at any time is a sync of the run model, and a cleanup a cleanup. */
  lemma ReconcileIsSync(s: Sys, bridge: string, active: Active, eps: seq<HostNetworkEndpoint>, order: seq<string>)
    ensures var g, op := Agent(s.world, active), Sync(eps, order, s.faults);
      var r, c := Reconcile(s, bridge, active, eps, order), Call(g, bridge, op);
      && After(g, bridge, op) == Agent(r.sys.world, r.active) && c.ok == r.ok
      && r.sys.log == s.log + c.sys.log && r.sys.faults == c.sys.faults
  {
    var t := s.(log := []);
    assert Late(t, s.log) == s;
    EnsureAllLate(t, s.log, bridge, eps, map[]);
    var e := EnsureAll(t, bridge, eps, map[]);
    RemoveStaleLate(e.sys, s.log, bridge, active, e.desired, order);
  }

  lemma RemovalIsCleanup(s: Sys, bridge: string, active: Active, order: seq<string>)
    ensures var g, op := Agent(s.world, active), Cleanup(order, s.faults);
      var t, c := RemoveStale(s, bridge, active, map[], order), Call(g, bridge, op);
      && After(g, bridge, op) == Agent(t.world, map[])
      && t.log == s.log + c.sys.log && t.faults == c.sys.faults
  {
    var t := s.(log := []);
    assert Late(t, s.log) == s;
    RemoveStaleLate(t, s.log, bridge, active, map[], order);
  }
}
