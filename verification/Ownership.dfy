/** The code issues only commands it owns: for the endpoints listed, and for the stale ones it tracks. */
module Ownership {
  import opened Api
  import opened Naming
  import opened Kernel
  import opened Command
  import opened NetworkSpec
  import opened Placement

  lemma ActsNothing(s: Sys, names: set<Names>, bridge: string)
    ensures Acts(s, s, names, bridge)
  {
  }

  lemma ActsThen(s: Sys, t: Sys, u: Sys, names: set<Names>, bridge: string)
    requires Acts(s, t, names, bridge) && Acts(t, u, names, bridge)
    ensures Acts(s, u, names, bridge)
  {
    FollowsTransitive(s, t, u);
  }

  lemma ActsMore(s: Sys, t: Sys, names: set<Names>, more: set<Names>, bridge: string)
    requires Acts(s, t, names, bridge) && names <= more
    ensures Acts(s, t, more, bridge)
  {
    forall e | e in Since(s, t)
      ensures OwnedBySome(e.cmd, more, bridge)
    {
      var a :| a in names && Owned(e.cmd, a, bridge);
    }
  }

  lemma ExecActs(s: Sys, c: Cmd, a: Names, bridge: string)
    requires Owned(c, a, bridge)
    ensures Acts(s, Exec(s, c).sys, {a}, bridge)
  {
    ExecFollows(s, c);
    assert OwnedBySome(c, {a}, bridge);
  }

  lemma {:induction false} ScriptActs(s: Sys, cs: seq<Cmd>, a: Names, bridge: string)
    requires forall c :: c in cs ==> Owned(c, a, bridge)
    ensures Acts(s, Script(s, cs).sys, {a}, bridge)
    decreases cs
  {
    if cs == [] {
      ActsNothing(s, {a}, bridge);
    } else {
      ExecActs(s, cs[0], a, bridge);
      var r := Do(s, cs[0]);
      if r.ok {
        ScriptActs(r.sys, cs[1..], a, bridge);
        ActsThen(s, r.sys, Script(s, cs).sys, {a}, bridge);
      }
    }
  }

  lemma EnsureNetNSActs(s: Sys, a: Names, bridge: string)
    ensures Acts(s, EnsureNetNS(s, a.ns).sys, {a}, bridge)
  {
    var e := NetNSExists(s, a.ns);
    ExecActs(s, NetnsList, a, bridge);
    if e.ok {
      var added := if e.found then Out(e.sys, true) else AddNetNS(e.sys, a.ns);
      if !e.found {
        ExecActs(e.sys, NetnsAdd(a.ns), a, bridge);
        ActsThen(s, e.sys, added.sys, {a}, bridge);
      }
      if added.ok {
        ExecActs(added.sys, LoopbackUp(a.ns), a, bridge);
        ActsThen(s, added.sys, Do(added.sys, LoopbackUp(a.ns)).sys, {a}, bridge);
      }
    }
  }

  lemma EnsureInRootActs(s: Sys, a: Names, bridge: string)
    ensures Acts(s, EnsureInRoot(s, a).sys, {a}, bridge)
  {
    var e := LinkExists(s, RootKey(a));
    ExecActs(s, LinkShow(RootKey(a)), a, bridge);
    if e.ok && !e.found {
      ExecActs(e.sys, LinkAdd(a.host, a.peer), a, bridge);
      ActsThen(s, e.sys, Do(e.sys, LinkAdd(a.host, a.peer)).sys, {a}, bridge);
    }
  }

  lemma EnsureInNetNSActs(s: Sys, a: Names, bridge: string)
    ensures Acts(s, EnsureInNetNS(s, a).sys, {a}, bridge)
  {
    var e := LinkExists(s, InnerKey(a));
    ExecActs(s, LinkShow(InnerKey(a)), a, bridge);
    if e.ok && !e.found {
      var r := EnsureInRoot(e.sys, a);
      EnsureInRootActs(e.sys, a, bridge);
      ActsThen(s, e.sys, r.sys, {a}, bridge);
      if r.ok {
        ExecActs(r.sys, LinkMove(a.host, a.ns), a, bridge);
        ActsThen(s, r.sys, Do(r.sys, LinkMove(a.host, a.ns)).sys, {a}, bridge);
      }
    }
  }

  lemma InnerConfigOwned(a: Names, mac: string, ip: string, bridge: string)
    ensures forall c :: c in InnerConfig(a, mac, ip) ==> Owned(c, a, bridge)
  {
  }

  lemma EnsureVethPairActs(s: Sys, a: Names, mac: string, ip: string, bridge: string)
    requires a.ns != ""
    ensures Acts(s, EnsureVethPair(s, a, mac, ip).sys, {a}, bridge)
  {
    var p := EnsureInNetNS(s, a);
    EnsureInNetNSActs(s, a, bridge);
    if p.ok {
      InnerConfigOwned(a, mac, ip, bridge);
      ScriptActs(p.sys, InnerConfig(a, mac, ip), a, bridge);
      ActsThen(s, p.sys, Script(p.sys, InnerConfig(a, mac, ip)).sys, {a}, bridge);
    }
  }

  /** Three stages, each run only if the one before succeeded. */
  lemma StagesAct(s: Sys, n: Out, v: Out, o: Out, names: set<Names>, bridge: string)
    requires Acts(s, n.sys, names, bridge)
    requires n.ok ==> Acts(n.sys, v.sys, names, bridge)
    requires n.ok && v.ok ==> Acts(v.sys, o.sys, names, bridge)
    ensures Acts(s, if !n.ok then n.sys else if !v.ok then v.sys else o.sys, names, bridge)
  {
    if n.ok {
      ActsThen(s, n.sys, v.sys, names, bridge);
      if v.ok {
        ActsThen(s, v.sys, o.sys, names, bridge);
      }
    }
  }

  lemma PortCmdsAct(s: Sys, bridge: string, a: Names, id: string)
    ensures Acts(s, Script(s, PortCmds(bridge, a.peer, id)).sys, {a}, bridge)
  {
    ScriptActs(s, PortCmds(bridge, a.peer, id), a, bridge);
  }

  lemma EnsureEndpointActs(s: Sys, bridge: string, ep: HostNetworkEndpoint)
    requires EffectiveNetNS(ep) != ""
    ensures Acts(s, EnsureEndpoint(s, bridge, ep).sys, {NamesOf(ep)}, bridge)
  {
    var a := NamesOf(ep);
    var n := EnsureNetNS(s, a.ns);
    var v := EnsureVethPair(n.sys, a, ep.mac, ep.ip);
    var o := Script(v.sys, PortCmds(bridge, a.peer, ep.portID));
    EnsureNetNSActs(s, a, bridge);
    EnsureVethPairActs(n.sys, a, ep.mac, ep.ip, bridge);
    PortCmdsAct(v.sys, bridge, a, ep.portID);
    StagesAct(s, n, v, o, {a}, bridge);
  }

  /** The endpoints of a list name interfaces and namespaces of the given universe. */
  ghost predicate Lists(eps: seq<HostNetworkEndpoint>, names: set<Names>) {
    forall ep :: ep in eps && ep.vethName != "" ==> NamesOf(ep) in names && EffectiveNetNS(ep) != ""
  }

  /** The names that a list asks for. */
  function ListedNames(eps: seq<HostNetworkEndpoint>): set<Names> {
    set ep | ep in eps && ep.vethName != "" :: NamesOf(ep)
  }

  /** What is tracked is tracked under its own name and inside the universe. */
  ghost predicate Tracks(active: Active, names: set<Names>) {
    forall h :: h in active ==>
      active[h].vethName == h && active[h].netNS != "" && NamesOf(active[h]) in names
  }

  ghost function TrackedNames(active: Active, but: set<string>): set<Names> {
    set h | h in active && h !in but :: NamesOf(active[h])
  }

  lemma {:induction false} EnsureAllActs(
    s: Sys, bridge: string, eps: seq<HostNetworkEndpoint>, desired: Active, who: set<Names>, names: set<Names>)
    requires Lists(eps, who) && who <= names && Tracks(desired, names)
    ensures var r := EnsureAll(s, bridge, eps, desired);
      Acts(s, r.sys, who, bridge) && Tracks(r.desired, names)
    decreases eps
  {
    if eps == [] {
      ActsNothing(s, who, bridge);
    } else if eps[0].vethName == "" {
      assert Lists(eps[1..], who);
      EnsureAllActs(s, bridge, eps[1..], desired, who, names);
    } else {
      assert eps[0] in eps;
      var e := EnsureEndpoint(s, bridge, eps[0]);
      EnsureEndpointActs(s, bridge, eps[0]);
      ActsMore(s, e.sys, {NamesOf(eps[0])}, who, bridge);
      if e.ok {
        assert Lists(eps[1..], who);
        var more := desired[eps[0].vethName := Fill(eps[0])];
        assert NamesOf(Fill(eps[0])) == NamesOf(eps[0]);
        EnsureAllActs(e.sys, bridge, eps[1..], more, who, names);
        ActsThen(s, e.sys, EnsureAll(s, bridge, eps, desired).sys, who, bridge);
      }
    }
  }

  lemma RemoveEndpointActs(s: Sys, bridge: string, ep: HostNetworkEndpoint)
    requires ep.netNS != ""
    ensures Acts(s, RemoveEndpoint(s, bridge, ep.vethName, ep), {NamesOf(ep)}, bridge)
  {
    var a := NamesOf(ep);
    var p := Exec(s, DelPort(bridge, a.peer)).sys;
    ExecActs(s, DelPort(bridge, a.peer), a, bridge);
    assert |a.peer| >= |"-ovs"|;
    DeleteVethPairActs(p, a, bridge);
    var v := DeleteVethPair(p, a).sys;
    ActsThen(s, p, v, {a}, bridge);
    DeleteNetNSActs(v, a, bridge);
    ActsThen(s, v, DeleteNetNS(v, a.ns).sys, {a}, bridge);
  }

  lemma DeleteVethPairActs(s: Sys, a: Names, bridge: string)
    requires a.peer != ""
    ensures Acts(s, DeleteVethPair(s, a).sys, {a}, bridge)
  {
    var p := LinkExists(s, PeerKey(a));
    ExecActs(s, LinkShow(PeerKey(a)), a, bridge);
    if p.found {
      ExecActs(p.sys, LinkDel(PeerKey(a)), a, bridge);
      ActsThen(s, p.sys, Do(p.sys, LinkDel(PeerKey(a))).sys, {a}, bridge);
    } else {
      var h := LinkExists(p.sys, InnerKey(a));
      ExecActs(p.sys, LinkShow(InnerKey(a)), a, bridge);
      ActsThen(s, p.sys, h.sys, {a}, bridge);
      if h.found {
        ExecActs(h.sys, LinkDel(InnerKey(a)), a, bridge);
        ActsThen(s, h.sys, Do(h.sys, LinkDel(InnerKey(a))).sys, {a}, bridge);
      }
    }
  }

  lemma DeleteNetNSActs(s: Sys, a: Names, bridge: string)
    ensures Acts(s, DeleteNetNS(s, a.ns).sys, {a}, bridge)
  {
    var e := NetNSExists(s, a.ns);
    ExecActs(s, NetnsList, a, bridge);
    if e.ok && e.found {
      ExecActs(e.sys, NetnsDel(a.ns), a, bridge);
      ActsThen(s, e.sys, Do(e.sys, NetnsDel(a.ns)).sys, {a}, bridge);
    }
  }

  lemma {:induction false} RemoveStaleActs(
    s: Sys, bridge: string, active: Active, desired: Active, order: seq<string>, names: set<Names>)
    requires Tracks(active, names)
    ensures Acts(s, RemoveStale(s, bridge, active, desired, order), TrackedNames(active, desired.Keys), bridge)
    decreases order
  {
    var who := TrackedNames(active, desired.Keys);
    if order == [] {
      ActsNothing(s, who, bridge);
    } else {
      var n := |order| - 1;
      RemoveStaleActs(s, bridge, active, desired, order[..n], names);
      var t := RemoveStale(s, bridge, active, desired, order[..n]);
      var h := order[n];
      if h in active && h !in desired {
        RemoveEndpointActs(t, bridge, active[h]);
        ActsMore(t, RemoveEndpoint(t, bridge, h, active[h]), {NamesOf(active[h])}, who, bridge);
        ActsThen(s, t, RemoveEndpoint(t, bridge, h, active[h]), who, bridge);
      }
    }
  }

  lemma ReconcileActs(
    s: Sys, bridge: string, active: Active, eps: seq<HostNetworkEndpoint>, order: seq<string>,
    listed: set<Names>, names: set<Names>)
    requires Lists(eps, listed) && listed <= names && Tracks(active, names)
    ensures var r := Reconcile(s, bridge, active, eps, order);
      Acts(s, r.sys, listed + TrackedNames(active, {}), bridge) && Tracks(r.active, names)
  {
    var e := EnsureAll(s, bridge, eps, map[]);
    var who := listed + TrackedNames(active, {});
    EnsureAllActs(s, bridge, eps, map[], listed, names);
    ActsMore(s, e.sys, listed, who, bridge);
    if e.ok {
      var t := RemoveStale(e.sys, bridge, active, e.desired, order);
      RemoveStaleActs(e.sys, bridge, active, e.desired, order, names);
      ActsMore(e.sys, t, TrackedNames(active, e.desired.Keys), who, bridge);
      ActsThen(s, e.sys, t, who, bridge);
    }
  }
}
