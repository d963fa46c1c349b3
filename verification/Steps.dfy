/** Which commands a sync issues, in which order, and that it stops at the first one that fails. */
module Steps {
  import opened Api
  import opened Naming
  import opened Kernel
  import opened Command
  import opened NetworkSpec
  import opened Placement
  import opened Ownership
  import opened Convergence
  import opened Runs
  import opened Leftovers

  // --- the commands, spelled out

  function NetNSSteps(w: World, ns: string): seq<Cmd> {
    [NetnsList] + (if ns in w.netns then [] else [NetnsAdd(ns)]) + [LoopbackUp(ns)]
  }

  /** Where an earlier run left the host end decides how it comes into its namespace. */
  function HomeSteps(w: World, host: string, ns: string): seq<Cmd> {
    var peer := host + "-ovs";
    if Key(ns, host) in w.links then [LinkShow(Key(ns, host))]
    else if Key("", host) in w.links then [LinkShow(Key(ns, host)), LinkShow(Key("", host)), LinkMove(host, ns)]
    else [LinkShow(Key(ns, host)), LinkShow(Key("", host)), LinkAdd(host, peer), LinkMove(host, ns)]
  }

  function ConfigSteps(host: string, ns: string, mac: string, ip: string): seq<Cmd> {
    (if mac == "" then [] else [SetMac(Key(ns, host), mac)])
    + [SetUp(Key(ns, host))]
    + (if ip == "" then [] else [AddrReplace(Key(ns, host), ip)])
    + [SetUp(Key("", host + "-ovs"))]
  }

  function PortSteps(bridge: string, host: string, portID: string): seq<Cmd> {
    [AddPort(bridge, host + "-ovs")] + if portID == "" then [] else [SetIfaceID(host + "-ovs", portID)]
  }

  function EndpointSteps(w: World, bridge: string, ep: HostNetworkEndpoint): seq<Cmd> {
    var ns := EffectiveNetNS(ep);
    NetNSSteps(w, ns)
    + (HomeSteps(w, ep.vethName, ns) + ConfigSteps(ep.vethName, ns, ep.mac, ep.ip))
    + PortSteps(bridge, ep.vethName, ep.portID)
  }

  /** Each endpoint in the world that the ones before have settled. */
  function AllSteps(w: World, bridge: string, eps: seq<HostNetworkEndpoint>): seq<Cmd>
    decreases eps
  {
    if eps == [] then []
    else if eps[0].vethName == "" then AllSteps(w, bridge, eps[1..])
    else EndpointSteps(w, bridge, eps[0]) + AllSteps(Settle(w, bridge, eps[0]), bridge, eps[1..])
  }

  // --- carrying out a list of commands

  predicate CleanUpTo(faults: seq<Fault>, n: nat) {
    forall i :: 0 <= i < n && i < |faults| ==> faults[i].Clean?
  }

  /** The first fault is at command k, and its text is none that the agent tolerates. */
  predicate FailsAt(faults: seq<Fault>, k: nat) {
    k < |faults| && CleanUpTo(faults, k) && faults[k].Fault? && faults[k].text.OtherText?
  }

  ghost predicate Issues(s: Sys, t: Sys, cs: seq<Cmd>) {
    && s.log <= t.log && |t.log| == |s.log| + |cs|
    && forall i :: 0 <= i < |cs| ==> t.log[|s.log| + i].cmd == cs[i]
  }

  /** Without faults all the commands are issued, and the outcome is good; at a fault they stop, and it is not. */
  ghost predicate Carries(s: Sys, o: Out, cs: seq<Cmd>) {
    && (CleanUpTo(s.faults, |cs|) ==>
          o.ok && Issues(s, o.sys, cs) && o.sys.faults == if |cs| <= |s.faults| then s.faults[|cs|..] else [])
    && forall k: nat :: k < |cs| && FailsAt(s.faults, k) ==> !o.ok && Issues(s, o.sys, cs[..k + 1])
  }

  lemma ThenCarries(s: Sys, a: Out, b: Out, xs: seq<Cmd>, ys: seq<Cmd>)
    requires Carries(s, a, xs) && (a.ok && CleanUpTo(s.faults, |xs|) ==> Carries(a.sys, b, ys))
    ensures Carries(s, if a.ok then b else a, xs + ys)
  {
    var o, zs := if a.ok then b else a, xs + ys;
    if CleanUpTo(s.faults, |zs|) {
      assert CleanUpTo(s.faults, |xs|) && CleanUpTo(a.sys.faults, |ys|);
      assert Issues(s, o.sys, zs);
    }
    forall k: nat | k < |zs| && FailsAt(s.faults, k)
      ensures !o.ok && Issues(s, o.sys, zs[..k + 1])
    {
      if k < |xs| {
        assert zs[..k + 1] == xs[..k + 1];
      } else {
        assert CleanUpTo(s.faults, |xs|) && FailsAt(a.sys.faults, k - |xs|);
        assert zs[..k + 1] == xs + ys[..k - |xs| + 1];
      }
    }
  }

  lemma NothingCarries(s: Sys)
    ensures Carries(s, Out(s, true), [])
  {
  }

  lemma DoCarries(s: Sys, c: Cmd)
    requires Accepts(s.world, c)
    ensures Carries(s, Do(s, c), [c])
  {
  }

  /** The answer "File exists" is tolerated, any other error is not. */
  lemma AddCarries(s: Sys, ns: string)
    requires Accepts(s.world, NetnsAdd(ns))
    ensures Carries(s, AddNetNS(s, ns), [NetnsAdd(ns)])
  {
  }

  lemma LooksCarry(s: Sys, k: Key, ns: string)
    ensures var f := NetNSExists(s, ns);
      Carries(s, Out(f.sys, f.ok), [NetnsList]) && f.sys.world == s.world
      && (CleanUpTo(s.faults, 1) ==> (f.found <==> ns in s.world.netns))
    ensures var f := LinkExists(s, k);
      && (k.ns == "" || k.ns in s.world.netns ==> Carries(s, Out(f.sys, f.ok), [LinkShow(k)]))
      && f.sys.world == s.world
      && (CleanUpTo(s.faults, 1) ==> (f.found <==> k in s.world.links))
  {
  }

  /** Each command is acceptable in the world that the ones before have made. */
  ghost predicate CanRun(w: World, cs: seq<Cmd>)
    decreases cs
  {
    cs == [] || (Accepts(w, cs[0]) && CanRun(Effect(w, cs[0]), cs[1..]))
  }

  lemma {:induction false} ScriptCarries(s: Sys, cs: seq<Cmd>)
    requires CanRun(s.world, cs)
    ensures Carries(s, Script(s, cs), cs)
    decreases cs
  {
    if cs == [] {
      NothingCarries(s);
    } else {
      var o := Do(s, cs[0]);
      DoCarries(s, cs[0]);
      DoDoes(s, cs[0]);
      if o.ok {
        ScriptCarries(o.sys, cs[1..]);
      }
      ThenCarries(s, o, Script(o.sys, cs[1..]), [cs[0]], cs[1..]);
      assert [cs[0]] + cs[1..] == cs;
    }
  }

  // --- one endpoint

  lemma NetNSCarries(s: Sys, ns: string)
    requires ns != ""
    ensures Carries(s, EnsureNetNS(s, ns), NetNSSteps(s.world, ns))
  {
    var e := NetNSExists(s, ns);
    var add := if e.found then Out(e.sys, true) else AddNetNS(e.sys, ns);
    var up := Do(add.sys, LoopbackUp(ns));
    var adds := if ns in s.world.netns then [] else [NetnsAdd(ns)];
    LooksCarry(s, Key("", ""), ns);
    if CleanUpTo(s.faults, 1) && e.ok {
      if e.found {
        NothingCarries(e.sys);
      } else {
        AddCarries(e.sys, ns);
      }
      if add.ok && CleanUpTo(e.sys.faults, |adds|) {
        DoCarries(add.sys, LoopbackUp(ns));
      }
      ThenCarries(e.sys, add, up, adds, [LoopbackUp(ns)]);
    }
    ThenCarries(s, Out(e.sys, e.ok), if add.ok then up else add, [NetnsList], adds + [LoopbackUp(ns)]);
    assert [NetnsList] + (adds + [LoopbackUp(ns)]) == NetNSSteps(s.world, ns);
  }

  /** The host end is looked for in root, made there if it is not, and moved. */
  lemma FetchCarries(s: Sys, a: Names, bridge: string)
    requires Sound(a) && WellFormed(s.world) && Placed(s.world, a, bridge) && a.ns in s.world.netns
    requires InnerKey(a) !in s.world.links
    ensures var r := EnsureInRoot(s, a); var moved := Do(r.sys, LinkMove(a.host, a.ns));
      Carries(s, if r.ok then moved else r,
        [LinkShow(RootKey(a))] + (if RootKey(a) in s.world.links then [] else [LinkAdd(a.host, a.peer)])
        + [LinkMove(a.host, a.ns)])
  {
    var e, r := LinkExists(s, RootKey(a)), EnsureInRoot(s, a);
    var add := if e.found then Out(e.sys, true) else Do(e.sys, LinkAdd(a.host, a.peer));
    var adds := if RootKey(a) in s.world.links then [] else [LinkAdd(a.host, a.peer)];
    LooksCarry(s, RootKey(a), "");
    if CleanUpTo(s.faults, 1) && e.ok {
      if e.found {
        NothingCarries(e.sys);
      } else {
        DoCarries(e.sys, LinkAdd(a.host, a.peer));
        DoDoes(e.sys, LinkAdd(a.host, a.peer));
      }
    }
    ThenCarries(s, Out(e.sys, e.ok), add, [LinkShow(RootKey(a))], adds);
    assert r == if e.ok then add else Out(e.sys, e.ok);
    if r.ok && CleanUpTo(s.faults, 1 + |adds|) {
      DoCarries(r.sys, LinkMove(a.host, a.ns));
    }
    ThenCarries(s, r, Do(r.sys, LinkMove(a.host, a.ns)), [LinkShow(RootKey(a))] + adds, [LinkMove(a.host, a.ns)]);
  }

  lemma HomeCarries(s: Sys, a: Names, bridge: string)
    requires Sound(a) && WellFormed(s.world) && Placed(s.world, a, bridge) && a.ns in s.world.netns
    requires a.peer == a.host + "-ovs"
    ensures Carries(s, EnsureInNetNS(s, a), HomeSteps(s.world, a.host, a.ns))
  {
    var e := LinkExists(s, InnerKey(a));
    var r := EnsureInRoot(e.sys, a);
    var fetched := if r.ok then Do(r.sys, LinkMove(a.host, a.ns)) else r;
    var look, steps := [LinkShow(InnerKey(a))], HomeSteps(s.world, a.host, a.ns);
    LooksCarry(s, InnerKey(a), "");
    if InnerKey(a) in s.world.links {
      assert steps == look + [];
      NothingCarries(e.sys);
      ThenCarries(s, Out(e.sys, e.ok), if e.found then Out(e.sys, true) else fetched, look, []);
    } else {
      FetchCarries(e.sys, a, bridge);
      var rest := [LinkShow(RootKey(a))] + (if RootKey(a) in s.world.links then [] else [LinkAdd(a.host, a.peer)])
        + [LinkMove(a.host, a.ns)];
      assert steps == look + rest;
      ThenCarries(s, Out(e.sys, e.ok), fetched, look, rest);
    }
  }

  lemma ConfigCarries(s: Sys, a: Names, mac: string, ip: string)
    requires InnerKey(a) in s.world.links && PeerKey(a) in s.world.links && a.peer == a.host + "-ovs"
    ensures Carries(s, Script(s, InnerConfig(a, mac, ip)), ConfigSteps(a.host, a.ns, mac, ip))
  {
    assert InnerConfig(a, mac, ip) == ConfigSteps(a.host, a.ns, mac, ip);
    OnLinksCanRun(s.world, a, InnerConfig(a, mac, ip));
    ScriptCarries(s, InnerConfig(a, mac, ip));
  }

  /** Commands that only set what the two ends have can run wherever both ends are. */
  lemma {:induction false} OnLinksCanRun(w: World, a: Names, cs: seq<Cmd>)
    requires InnerKey(a) in w.links && PeerKey(a) in w.links
    requires forall c :: c in cs ==>
      (c.SetMac? || c.SetUp? || c.AddrReplace?) && (c.key == InnerKey(a) || c.key == PeerKey(a))
    ensures CanRun(w, cs)
    decreases cs
  {
    if cs != [] {
      assert cs[0] in cs;
      OnLinksCanRun(Effect(w, cs[0]), a, cs[1..]);
    }
  }

  lemma PortCarries(s: Sys, a: Names, bridge: string, portID: string)
    requires bridge in s.world.bridges && a.peer == a.host + "-ovs"
    requires a.peer in s.world.ports ==> s.world.ports[a.peer].bridge == bridge
    ensures Carries(s, Script(s, PortCmds(bridge, a.peer, portID)), PortSteps(bridge, a.host, portID))
  {
    var cs := PortCmds(bridge, a.peer, portID);
    assert cs == PortSteps(bridge, a.host, portID);
    assert cs[1..] == if portID == "" then [] else [SetIfaceID(a.peer, portID)];
    assert CanRun(s.world, cs);
    ScriptCarries(s, cs);
  }

  lemma PairCarries(s: Sys, a: Names, mac: string, ip: string, bridge: string)
    requires Sound(a) && WellFormed(s.world) && Placed(s.world, a, bridge) && a.ns in s.world.netns
    requires a.peer == a.host + "-ovs"
    ensures Carries(s, EnsureVethPair(s, a, mac, ip),
      HomeSteps(s.world, a.host, a.ns) + ConfigSteps(a.host, a.ns, mac, ip))
  {
    var p := EnsureInNetNS(s, a);
    HomeCarries(s, a, bridge);
    EnsureInNetNSDone(s, a, bridge);
    HomeThenConfigured(s.world, a, mac, ip, bridge);
    if p.ok {
      ConfigCarries(p.sys, a, mac, ip);
    }
    ThenCarries(s, p, Script(p.sys, InnerConfig(a, mac, ip)),
      HomeSteps(s.world, a.host, a.ns), ConfigSteps(a.host, a.ns, mac, ip));
  }

  /** Exactly these commands in exactly this order; and at a fault none after the failing one. */
  lemma EndpointCarries(s: Sys, bridge: string, ep: HostNetworkEndpoint)
    requires Sound(NamesOf(ep)) && WellFormed(s.world) && Placed(s.world, NamesOf(ep), bridge)
    requires bridge in s.world.bridges
    ensures Carries(s, EnsureEndpoint(s, bridge, ep), EndpointSteps(s.world, bridge, ep))
  {
    var a := NamesOf(ep);
    var n := EnsureNetNS(s, a.ns);
    var v := EnsureVethPair(n.sys, a, ep.mac, ep.ip);
    var o := Script(v.sys, PortCmds(bridge, a.peer, ep.portID));
    var home := HomeSteps(s.world, a.host, a.ns) + ConfigSteps(a.host, a.ns, ep.mac, ep.ip);
    NetNSCarries(s, a.ns);
    EnsureNetNSDone(s, a);
    if n.ok {
      PairCarries(n.sys, a, ep.mac, ep.ip, bridge);
      EnsureVethPairDone(n.sys, a, ep.mac, ep.ip, bridge);
    }
    ThenCarries(s, n, v, NetNSSteps(s.world, a.ns), home);
    var m := if n.ok then v else n;
    if m.ok {
      PortCarries(m.sys, a, bridge, ep.portID);
    }
    ThenCarries(s, m, o, NetNSSteps(s.world, a.ns) + home, PortSteps(bridge, a.host, ep.portID));
  }

  /** Without its namespace the pair is not even looked for: the first look fails, and so does the call. */
  lemma NoNamespaceNoPair(s: Sys, a: Names, mac: string, ip: string)
    requires WellFormed(s.world) && a.ns != "" && a.ns !in s.world.netns && s.faults == []
    ensures var r := EnsureVethPair(s, a, mac, ip);
      !r.ok && r.sys.world == s.world && Issues(s, r.sys, [LinkShow(InnerKey(a))])
  {
  }

  /** A namespace that another program makes between the listing and the add: "File exists" is no error, exactly if
      the namespace is there. */
  lemma FileExistsIsTolerated(s: Sys, a: Names, there: bool)
    requires a.ns != "" && a.ns !in s.world.netns && s.faults == [Clean, Fault(FileExists, there)]
    ensures var r := EnsureNetNS(s, a.ns);
      && (r.ok <==> there)
      && (there ==> r.sys.world == s.world.(netns := s.world.netns[a.ns := true]))
      && Issues(s, r.sys, [NetnsList, NetnsAdd(a.ns), LoopbackUp(a.ns)])
  {
    var e := NetNSExists(s, a.ns);
    var r := EnsureNetNS(s, a.ns);
    assert e.ok && !e.found && e.sys.faults == [Fault(FileExists, there)];
    assert s.world.netns[a.ns := false][a.ns := true] == s.world.netns[a.ns := true];
  }

  // --- whole syncs

  lemma {:induction false} AllCarries(
    s: Sys, bridge: string, eps: seq<HostNetworkEndpoint>, desired: Active, names: set<Names>)
    requires Compatible(names) && Inv(s.world, names, bridge) && Lists(eps, names) && bridge in s.world.bridges
    ensures var r := EnsureAll(s, bridge, eps, desired); Carries(s, Out(r.sys, r.ok), AllSteps(s.world, bridge, eps))
    decreases eps
  {
    if eps == [] {
      NothingCarries(s);
    } else if eps[0].vethName == "" {
      assert Lists(eps[1..], names);
      AllCarries(s, bridge, eps[1..], desired, names);
    } else {
      var ep := eps[0];
      assert ep in eps && Lists(eps[1..], names);
      var e, more := EnsureEndpoint(s, bridge, ep), desired[ep.vethName := Fill(ep)];
      var r := EnsureAll(e.sys, bridge, eps[1..], more);
      EndpointCarries(s, bridge, ep);
      EnsureEndpointDone(s, bridge, ep);
      if e.ok {
        EnsureEndpointActs(s, bridge, ep);
        OwnedCommandsKeep(s.world, Since(s, e.sys), {NamesOf(ep)}, names, bridge);
        AllCarries(e.sys, bridge, eps[1..], more, names);
      }
      ThenCarries(s, e, Out(r.sys, r.ok),
        EndpointSteps(s.world, bridge, ep), AllSteps(Settle(s.world, bridge, ep), bridge, eps[1..]));
    }
  }

  ghost predicate Commands(log: seq<Event>, cs: seq<Cmd>) {
    |log| == |cs| && forall i :: 0 <= i < |cs| ==> log[i].cmd == cs[i]
  }

  /** A sync that meets its first fault at a command of its first loop stops right there: it has issued the steps up to
      that command and no more, returns an error, and tracks what it tracked before. */
  lemma SyncStopsAtAFault(g: Agent, bridge: string, op: Op, k: nat, names: set<Names>)
    requires Compatible(names) && AgentInv(g, names, bridge) && bridge in g.world.bridges
    requires op.Sync? && Lists(op.eps, names)
    requires k < |AllSteps(g.world, bridge, op.eps)| && FailsAt(op.faults, k)
    ensures !Call(g, bridge, op).ok && After(g, bridge, op).active == g.active
    ensures Commands(Call(g, bridge, op).sys.log, AllSteps(g.world, bridge, op.eps)[..k + 1])
  {
    AllCarries(Start(g, op), bridge, op.eps, map[], names);
  }

  /** A sync that meets none returns nil, and begins with all the steps. */
  lemma SyncTakesAllSteps(g: Agent, bridge: string, op: Op, names: set<Names>)
    requires Compatible(names) && AgentInv(g, names, bridge) && bridge in g.world.bridges
    requires op.Sync? && Lists(op.eps, names) && CleanUpTo(op.faults, |AllSteps(g.world, bridge, op.eps)|)
    ensures var r, n := Call(g, bridge, op), |AllSteps(g.world, bridge, op.eps)|;
      r.ok && n <= |r.sys.log| && Commands(r.sys.log[..n], AllSteps(g.world, bridge, op.eps))
  {
    var s := Start(g, op);
    var e := EnsureAll(s, bridge, op.eps, map[]);
    AllCarries(s, bridge, op.eps, map[], names);
    RemoveStaleDeletes(e.sys, bridge, g.active, e.desired, op.order);
  }

  /** After an error, whatever it was, nothing stale has been touched. */
  lemma ErrorRemovesNothing(g: Agent, bridge: string, op: Op, x: Names, names: set<Names>)
    requires Compatible(names) && AgentInv(g, names, bridge) && OpLists(op, names)
    requires op.Sync? && !Call(g, bridge, op).ok && x in names - Listed(op)
    ensures ViewOf(After(g, bridge, op).world, x) == ViewOf(g.world, x)
  {
    var s, listed := Start(g, op), Listed(op);
    EnsureAllActs(s, bridge, op.eps, map[], listed, names);
    OwnedCommandsKeep(s.world, Since(s, Call(g, bridge, op).sys), listed, names, bridge);
  }
}
