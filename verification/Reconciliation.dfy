/** What a reconcile call achieves: recovery after any run, framed removal, exactness, idempotence. */
module Reconciliation {
  import opened Api
  import opened Naming
  import opened Kernel
  import opened Command
  import opened Order
  import opened NetworkSpec
  import opened Placement
  import opened Ownership
  import opened Convergence
  import opened Runs

  /** The endpoints of a list keyed by interface; the last one wins. */
  function Keyed(eps: seq<HostNetworkEndpoint>, base: Active): Active
    decreases eps
  {
    if eps == [] then base
    else Keyed(eps[1..], if eps[0].vethName == "" then base else base[eps[0].vethName := Fill(eps[0])])
  }

  ghost predicate Distinct(eps: seq<HostNetworkEndpoint>) {
    forall i, j :: 0 <= i < j < |eps| && eps[i].vethName != "" ==> eps[i].vethName != eps[j].vethName
  }

  ghost predicate GoalsMet(w: World, active: Active, bridge: string) {
    forall h :: h in active ==> Goal(w, active[h], bridge)
  }

  lemma FillKeepsGoal(w: World, ep: HostNetworkEndpoint, bridge: string)
    ensures NamesOf(Fill(ep)) == NamesOf(ep) && (Goal(w, Fill(ep), bridge) <==> Goal(w, ep, bridge))
  {
  }

  lemma {:induction false} KeyedKeeps(eps: seq<HostNetworkEndpoint>, base: Active, h: string)
    requires forall ep :: ep in eps ==> ep.vethName != h || h == ""
    ensures h in Keyed(eps, base) <==> h in base
    ensures h in base ==> Keyed(eps, base)[h] == base[h]
    decreases eps
  {
    if eps != [] {
      var next := if eps[0].vethName == "" then base else base[eps[0].vethName := Fill(eps[0])];
      assert eps[0] in eps;
      KeyedKeeps(eps[1..], next, h);
      if eps[0].vethName == h && h != "" {
        assert false;
      }
    }
  }

  /** Every endpoint of a list with distinct interface names is in the map. */
  lemma {:induction false} KeyedHolds(eps: seq<HostNetworkEndpoint>, base: Active, ep: HostNetworkEndpoint)
    requires Distinct(eps) && ep in eps && ep.vethName != ""
    ensures ep.vethName in Keyed(eps, base) && Keyed(eps, base)[ep.vethName] == Fill(ep)
    ensures var kept := Keyed(eps, base)[ep.vethName];
      kept.(netNS := ep.netNS) == ep && IsNamespaceFor(kept.netNS, ep.netNS, ep.networkID)
    decreases eps
  {
    DerivedIsNamespaceFor(ep.netNS, ep.networkID);
    var next := if eps[0].vethName == "" then base else base[eps[0].vethName := Fill(eps[0])];
    if ep == eps[0] {
      forall x | x in eps[1..] ensures x.vethName != ep.vethName {
        var j :| 0 <= j < |eps[1..]| && eps[1..][j] == x;
        assert eps[j + 1] == x;
      }
      KeyedKeeps(eps[1..], next, ep.vethName);
    } else {
      KeyedHolds(eps[1..], next, ep);
    }
  }

  // --- the first loop

  /** After one endpoint has been ensured, the goals of the others still hold. */
  lemma GoalsSurvive(s: Sys, bridge: string, ep: HostNetworkEndpoint, desired: Active, names: set<Names>)
    requires Compatible(names) && Inv(s.world, names, bridge) && Tracks(desired, names)
    requires ep.vethName != "" && NamesOf(ep) in names && EffectiveNetNS(ep) != ""
    requires GoalsMet(s.world, desired, bridge) && EnsureEndpoint(s, bridge, ep).ok
    ensures var t := EnsureEndpoint(s, bridge, ep).sys; var more := desired[ep.vethName := Fill(ep)];
      Inv(t.world, names, bridge) && Tracks(more, names) && GoalsMet(t.world, more, bridge)
      && t.world.bridges == s.world.bridges
  {
    var t := EnsureEndpoint(s, bridge, ep).sys;
    EndpointGoal(s, bridge, ep);
    EnsureEndpointActs(s, bridge, ep);
    OwnedCommandsKeep(s.world, Since(s, t), {NamesOf(ep)}, names, bridge);
    OtherGoals(s.world, t.world, bridge, ep, desired, names);
    OneMoreGoal(t.world, bridge, ep, desired, names);
  }

  lemma OneMoreGoal(v: World, bridge: string, ep: HostNetworkEndpoint, desired: Active, names: set<Names>)
    requires Tracks(desired, names) && NamesOf(ep) in names && EffectiveNetNS(ep) != ""
    requires Goal(v, ep, bridge) && forall h :: h in desired && h != ep.vethName ==> Goal(v, desired[h], bridge)
    ensures var more := desired[ep.vethName := Fill(ep)]; Tracks(more, names) && GoalsMet(v, more, bridge)
  {
    FillKeepsGoal(v, ep, bridge);
  }

  lemma EndpointGoal(s: Sys, bridge: string, ep: HostNetworkEndpoint)
    requires Sound(NamesOf(ep)) && WellFormed(s.world) && Placed(s.world, NamesOf(ep), bridge)
    requires EnsureEndpoint(s, bridge, ep).ok
    ensures var t := EnsureEndpoint(s, bridge, ep).sys;
      Goal(t.world, ep, bridge) && t.world.bridges == s.world.bridges
  {
    EnsureEndpointDone(s, bridge, ep);
    SettleReachesGoal(s.world, bridge, ep);
  }

  lemma OtherGoals(w: World, v: World, bridge: string, ep: HostNetworkEndpoint, desired: Active, names: set<Names>)
    requires Tracks(desired, names) && GoalsMet(w, desired, bridge)
    requires forall x :: x in names - {NamesOf(ep)} ==> ViewOf(v, x) == ViewOf(w, x)
    ensures forall h :: h in desired && h != ep.vethName ==> Goal(v, desired[h], bridge)
  {
    forall h | h in desired && h != ep.vethName
      ensures Goal(v, desired[h], bridge)
    {
      assert NamesOf(desired[h]) in names - {NamesOf(ep)};
    }
  }

  lemma {:induction false} EnsureAllDone(
    s: Sys, bridge: string, eps: seq<HostNetworkEndpoint>, desired: Active, names: set<Names>)
    requires Compatible(names) && Inv(s.world, names, bridge) && Tracks(desired, names) && Lists(eps, names)
    requires GoalsMet(s.world, desired, bridge)
    ensures var r := EnsureAll(s, bridge, eps, desired);
      && (r.ok ==>
            && r.desired == Keyed(eps, desired) && GoalsMet(r.sys.world, r.desired, bridge)
            && Inv(r.sys.world, names, bridge) && r.sys.world.bridges == s.world.bridges)
      && (s.faults == [] && bridge in s.world.bridges ==> r.ok && r.sys.faults == [])
    decreases eps
  {
    if eps != [] {
      assert Lists(eps[1..], names);
      assert eps[0] in eps;
      if eps[0].vethName == "" {
        EnsureAllDone(s, bridge, eps[1..], desired, names);
      } else {
        EnsureEndpointDone(s, bridge, eps[0]);
        var e := EnsureEndpoint(s, bridge, eps[0]);
        if e.ok {
          GoalsSurvive(s, bridge, eps[0], desired, names);
          EnsureAllDone(e.sys, bridge, eps[1..], desired[eps[0].vethName := Fill(eps[0])], names);
        }
      }
    }
  }

  lemma {:induction false} EnsuredAreKeyed(s: Sys, bridge: string, eps: seq<HostNetworkEndpoint>, desired: Active)
    ensures var r := EnsureAll(s, bridge, eps, desired); r.ok ==> r.desired == Keyed(eps, desired)
    decreases eps
  {
    if eps != [] {
      if eps[0].vethName == "" {
        EnsuredAreKeyed(s, bridge, eps[1..], desired);
      } else {
        var e := EnsureEndpoint(s, bridge, eps[0]);
        EnsuredAreKeyed(e.sys, bridge, eps[1..], desired[eps[0].vethName := Fill(eps[0])]);
      }
    }
  }

  /** What is tracked after a sync under any faults: its list keyed by interface, or, after an early error, what was
      tracked before, whatever the call had already built. */
  lemma TrackedIsTheListOrTheOld(g: Agent, bridge: string, op: Op)
    requires op.Sync?
    ensures After(g, bridge, op).active == if Call(g, bridge, op).ok then Keyed(op.eps, map[]) else g.active
  {
    EnsuredAreKeyed(Start(g, op), bridge, op.eps, map[]);
  }

  // --- the deletion loop

  /** In any order and under any faults, the deletion loop leaves the namespace, links and port of every
      endpoint that is desired or not tracked as they were, and everything foreign. */
  lemma StaleRemovalIsFramed(
    s: Sys, bridge: string, active: Active, desired: Active, order: seq<string>, names: set<Names>)
    requires Compatible(names) && Inv(s.world, names, bridge) && Tracks(active, names)
    ensures var t := RemoveStale(s, bridge, active, desired, order);
      && Inv(t.world, names, bridge) && Foreign(t.world, names) == Foreign(s.world, names)
      && forall x :: x in names && (x.host in desired || x.host !in active) ==> ViewOf(t.world, x) == ViewOf(s.world, x)
  {
    var t, who := RemoveStale(s, bridge, active, desired, order), TrackedNames(active, desired.Keys);
    RemoveStaleActs(s, bridge, active, desired, order, names);
    OwnedCommandsKeep(s.world, Since(s, t), who, names, bridge);
    assert forall h :: h in active ==> NamesOf(active[h]).host == h;
  }

  /** Without faults the loop leaves nothing under the names of the stale endpoints it went through. */
  lemma {:induction false} StaleRemovalClears(
    s: Sys, bridge: string, active: Active, desired: Active, order: seq<string>, names: set<Names>)
    requires Compatible(names) && Inv(s.world, names, bridge) && Tracks(active, names)
    requires s.faults == [] && bridge in s.world.bridges
    ensures var t := RemoveStale(s, bridge, active, desired, order);
      && t.faults == [] && t.world.bridges == s.world.bridges
      && forall h :: h in order && h in active && h !in desired ==> ViewOf(t.world, NamesOf(active[h])) == NOTHING
    decreases order
  {
    if order != [] {
      var n := |order| - 1;
      var t := RemoveStale(s, bridge, active, desired, order[..n]);
      StaleRemovalClears(s, bridge, active, desired, order[..n], names);
      StaleRemovalIsFramed(s, bridge, active, desired, order[..n], names);
      var h := order[n];
      if h in active && h !in desired {
        RemoveEndpointClears(t, bridge, active[h]);
        ClearedFrames(t.world, NamesOf(active[h]), names);
      }
    }
  }

  lemma ClearedFrames(w: World, a: Names, names: set<Names>)
    requires Compatible(names) && a in names
    ensures forall x :: x in names ==> ViewOf(Cleared(w, a), x) == if x == a then NOTHING else ViewOf(w, x)
    requires forall k :: k in w.links && k.ns == a.ns ==> k == InnerKey(a)
  {
    assert Sound(a);
    forall x | x in names && x != a
      ensures ViewOf(Cleared(w, a), x) == ViewOf(w, x)
    {
      assert Apart(x, a) && Sound(x);
    }
  }

  // --- whole calls

  /** A sync that returns no error, whatever faults it met, has reached the goal of every endpoint it tracks
      from then on, which is the list keyed by interface. A sync without faults returns no error. */
  lemma SyncReachesGoals(g: Agent, bridge: string, op: Op, names: set<Names>)
    requires Compatible(names) && AgentInv(g, names, bridge) && op.Sync? && Lists(op.eps, names)
    ensures var r, h := Call(g, bridge, op), After(g, bridge, op);
      && (r.ok ==> h.active == Keyed(op.eps, map[]) && GoalsMet(h.world, h.active, bridge))
      && (op.faults == [] && bridge in g.world.bridges ==> r.ok)
  {
    var s := Start(g, op);
    var e := EnsureAll(s, bridge, op.eps, map[]);
    EnsureAllDone(s, bridge, op.eps, map[], names);
    EnsureAllActs(s, bridge, op.eps, map[], names, names);
    if e.ok {
      StaleRemovalIsFramed(e.sys, bridge, g.active, e.desired, op.order, names);
    }
  }

  /** Crash recovery: after any run of calls, each under any faults, one sync without faults returns no error
      and reaches the goal of every endpoint of its list. */
  lemma CrashRecovery(g: Agent, bridge: string, ops: seq<Op>, op: Op, names: set<Names>)
    requires Compatible(names) && Untouched(g, names) && bridge in g.world.bridges
    requires OpsList(ops, names) && op.Sync? && Lists(op.eps, names) && Distinct(op.eps) && op.faults == []
    ensures var last := Run(g, bridge, ops); var h := After(last, bridge, op);
      && Call(last, bridge, op).ok
      && forall ep :: ep in op.eps && ep.vethName != "" ==> Goal(h.world, ep, bridge)
  {
    UntouchedIsInv(g, names, bridge);
    RunKeeps(g, bridge, ops, names);
    var last := Run(g, bridge, ops);
    assert Foreign(last.world, names).bridges == last.world.bridges;
    SyncReachesGoals(last, bridge, op, names);
    var h := After(last, bridge, op);
    forall ep | ep in op.eps && ep.vethName != ""
      ensures Goal(h.world, ep, bridge)
    {
      KeyedHolds(op.eps, map[], ep);
      FillKeepsGoal(h.world, ep, bridge);
    }
  }

  // --- exactness without faults

  /** Under the managed names there is what the tracked endpoints want and nothing else; the rest is as in w0. */
  ghost predicate Exact(g: Agent, w0: World, names: set<Names>, bridge: string) {
    && AgentInv(g, names, bridge)
    && Foreign(g.world, names) == Foreign(w0, names)
    && GoalsMet(g.world, g.active, bridge)
    && forall a :: a in names && a.host !in g.active ==> ViewOf(g.world, a) == NOTHING
  }

  ghost predicate CleanOp(g: Agent, op: Op, names: set<Names>) {
    && (op.Sync? || op.Cleanup?) && op.faults == [] && Enumerates(op.order, g.active.Keys) && OpLists(op, names)
  }

  ghost predicate CleanRun(g: Agent, bridge: string, ops: seq<Op>, names: set<Names>)
    decreases ops
  {
    ops == [] || (CleanOp(g, ops[0], names) && CleanRun(After(g, bridge, ops[0]), bridge, ops[1..], names))
  }

  /** The tracked endpoints a call leaves. */
  function LastList(op: Op): Active {
    if op.Sync? then Keyed(op.eps, map[]) else map[]
  }

  lemma CleanRemovalIsExact(
    s: Sys, bridge: string, active: Active, desired: Active, order: seq<string>, names: set<Names>)
    requires Compatible(names) && Inv(s.world, names, bridge) && Tracks(active, names)
    requires s.faults == [] && bridge in s.world.bridges && Enumerates(order, active.Keys)
    requires forall a :: a in names && a.host !in active && a.host !in desired ==> ViewOf(s.world, a) == NOTHING
    ensures var t := RemoveStale(s, bridge, active, desired, order);
      forall a :: a in names && a.host !in desired ==> ViewOf(t.world, a) == NOTHING
  {
    var t := RemoveStale(s, bridge, active, desired, order);
    StaleRemovalClears(s, bridge, active, desired, order, names);
    StaleRemovalIsFramed(s, bridge, active, desired, order, names);
    forall a | a in names && a.host !in desired
      ensures ViewOf(t.world, a) == NOTHING
    {
      if a.host in active {
        var b := NamesOf(active[a.host]);
        assert b in names && b.host == a.host;
        assert a == b || Apart(a, b);
      }
    }
  }

  lemma CleanSyncIsExact(g: Agent, w0: World, bridge: string, op: Op, names: set<Names>)
    requires Compatible(names) && Exact(g, w0, names, bridge) && bridge in w0.bridges
    requires op.Sync? && CleanOp(g, op, names)
    ensures Call(g, bridge, op).ok
    ensures var h := After(g, bridge, op); Exact(h, w0, names, bridge) && h.active == LastList(op)
  {
    var s := Start(g, op);
    var e := EnsureAll(s, bridge, op.eps, map[]);
    BridgesAreForeign(g.world, w0, names);
    SyncReachesGoals(g, bridge, op, names);
    EnsureAllDone(s, bridge, op.eps, map[], names);
    var listed := ListedNames(op.eps);
    assert Lists(op.eps, listed) && listed <= names;
    EnsureAllActs(s, bridge, op.eps, map[], listed, names);
    OwnedCommandsKeep(s.world, Since(s, e.sys), listed, names, bridge);
    EveryCommandKeeps(g, bridge, op, Issued(g, bridge, op), names, names);
    ListedAreKeyed(op.eps, map[]);
    CleanRemovalIsExact(e.sys, bridge, g.active, e.desired, op.order, names);
  }

  lemma BridgesAreForeign(w: World, v: World, names: set<Names>)
    requires Foreign(w, names) == Foreign(v, names)
    ensures w.bridges == v.bridges
  {
    assert Foreign(w, names).bridges == Foreign(v, names).bridges;
  }

  lemma {:induction false} ListedAreKeyed(eps: seq<HostNetworkEndpoint>, base: Active)
    ensures forall h :: h in base ==> h in Keyed(eps, base)
    ensures forall a :: a in ListedNames(eps) ==> a.host in Keyed(eps, base)
    decreases eps
  {
    if eps != [] {
      var next := if eps[0].vethName == "" then base else base[eps[0].vethName := Fill(eps[0])];
      ListedAreKeyed(eps[1..], next);
      assert forall ep :: ep in eps ==> ep == eps[0] || ep in eps[1..];
    }
  }

  lemma CleanCleanupIsExact(g: Agent, w0: World, bridge: string, op: Op, names: set<Names>)
    requires Compatible(names) && Exact(g, w0, names, bridge) && bridge in w0.bridges
    requires op.Cleanup? && CleanOp(g, op, names)
    ensures var h := After(g, bridge, op); Exact(h, w0, names, bridge) && h.active == map[]
  {
    var s := Start(g, op);
    BridgesAreForeign(g.world, w0, names);
    EveryCommandKeeps(g, bridge, op, Issued(g, bridge, op), names, names);
    CleanRemovalIsExact(s, bridge, g.active, map[], op.order, names);
  }

  /** Exactness: from a host without managed names, after any run of calls none of whose commands met a fault,
      the managed namespaces, links and ports are those of the tracked endpoints, and these are the last list. */
  lemma {:induction false} CleanRunIsExact(g: Agent, w0: World, bridge: string, ops: seq<Op>, names: set<Names>)
    requires Compatible(names) && Exact(g, w0, names, bridge) && bridge in w0.bridges
    requires CleanRun(g, bridge, ops, names)
    ensures var h := Run(g, bridge, ops);
      Exact(h, w0, names, bridge) && (ops != [] ==> h.active == LastList(ops[|ops| - 1]))
    decreases ops
  {
    if ops != [] {
      var op := ops[0];
      if op.Sync? {
        CleanSyncIsExact(g, w0, bridge, op, names);
      } else {
        CleanCleanupIsExact(g, w0, bridge, op, names);
      }
      CleanRunIsExact(After(g, bridge, op), w0, bridge, ops[1..], names);
    }
  }

  lemma UntouchedIsExact(g: Agent, bridge: string, names: set<Names>)
    requires Compatible(names) && Untouched(g, names)
    ensures Exact(g, g.world, names, bridge)
  {
    UntouchedIsInv(g, names, bridge);
  }

  /** A world with nothing under the managed names is its foreign part. */
  lemma NothingManaged(w: World, bridge: string, names: set<Names>)
    requires Inv(w, names, bridge) && forall a :: a in names ==> ViewOf(w, a) == NOTHING
    ensures Foreign(w, names) == w
  {
    var f := Foreign(w, names);
    forall a | a in names
      ensures a.ns !in w.netns && a.peer !in w.ports
      ensures forall k :: k in w.links ==> k != RootKey(a) && k != PeerKey(a) && k.ns != a.ns
    {
      var v := ViewOf(w, a);
      assert v.ns == None && v.root == None && v.inner == None && v.peer == None && v.port == None;
      assert Placed(w, a, bridge);
    }
    assert f.netns == w.netns && f.links == w.links && f.ports == w.ports;
  }

  /** Cleanup after such a run restores the very world the run started from. */
  lemma CleanupRestoresTheWorld(g: Agent, bridge: string, ops: seq<Op>, op: Op, names: set<Names>)
    requires Compatible(names) && Untouched(g, names) && bridge in g.world.bridges
    requires CleanRun(g, bridge, ops, names) && op.Cleanup? && CleanOp(Run(g, bridge, ops), op, names)
    ensures After(Run(g, bridge, ops), bridge, op) == g
  {
    UntouchedIsExact(g, bridge, names);
    CleanRunIsExact(g, g.world, bridge, ops, names);
    var h := After(Run(g, bridge, ops), bridge, op);
    CleanCleanupIsExact(Run(g, bridge, ops), g.world, bridge, op, names);
    UntouchedIsInv(g, names, bridge);
    NothingManaged(h.world, bridge, names);
    NothingManaged(g.world, bridge, names);
  }

  // --- idempotence

  /** Commands that create, move or delete nothing. */
  predicate Gentle(c: Cmd) {
    !c.NetnsAdd? && !c.NetnsDel? && !c.LinkAdd? && !c.LinkMove? && !c.LinkDel? && !c.DelPort?
  }

  ghost predicate Quiet(s: Sys, t: Sys) {
    s.log <= t.log && t.faults == [] && t.world == s.world && forall e :: e in t.log[|s.log|..] ==> Gentle(e.cmd)
  }

  lemma QuietThen(s: Sys, t: Sys, u: Sys)
    requires Quiet(s, t) && Quiet(t, u)
    ensures Quiet(s, u)
  {
    assert u.log[|s.log|..] == t.log[|s.log|..] + u.log[|t.log|..];
  }

  lemma GentleExec(s: Sys, c: Cmd)
    requires s.faults == [] && Idle(s.world, c)
    ensures Quiet(s, Exec(s, c).sys) && Do(s, c).ok
  {
    var t := Exec(s, c).sys;
    assert t.log[|s.log|..] == [t.log[|s.log|]];
  }

  lemma {:induction false} GentleScript(s: Sys, cs: seq<Cmd>)
    requires s.faults == []
    requires forall c :: c in cs ==> Idle(s.world, c)
    ensures Quiet(s, Script(s, cs).sys) && Script(s, cs).ok
    decreases cs
  {
    if cs != [] {
      GentleExec(s, cs[0]);
      GentleScript(Do(s, cs[0]).sys, cs[1..]);
      QuietThen(s, Do(s, cs[0]).sys, Script(s, cs).sys);
    }
  }

  /** A command that finds everything as it would leave it. */
  ghost predicate Idle(w: World, c: Cmd) { Gentle(c) && Accepts(w, c) && Effect(w, c) == w }

  /** On an endpoint whose goal is met, every configuration command changes nothing. */
  lemma InnerConfigIsIdle(w: World, ep: HostNetworkEndpoint, bridge: string)
    requires Goal(w, ep, bridge)
    ensures forall c :: c in InnerConfig(NamesOf(ep), ep.mac, ep.ip) ==> Idle(w, c)
  {
    var a := NamesOf(ep);
    var v := ViewOf(w, a);
    var h, p := v.inner.value, v.peer.value;
    assert w.links[InnerKey(a)] == h && w.links[PeerKey(a)] == p;
    assert h.(up := true) == h && p.(up := true) == p;
    assert ep.mac != "" ==> h.(mac := Some(ep.mac)) == h;
    assert ep.ip != "" ==> h.addrs + {ep.ip} == h.addrs;
    assert w.links[InnerKey(a) := h] == w.links && w.links[PeerKey(a) := p] == w.links;
  }

  lemma PortCmdsAreIdle(w: World, ep: HostNetworkEndpoint, bridge: string)
    requires Goal(w, ep, bridge) && bridge in w.bridges
    ensures forall c :: c in PortCmds(bridge, NamesOf(ep).peer, ep.portID) ==> Idle(w, c)
  {
    var a := NamesOf(ep);
    var o := ViewOf(w, a).port.value;
    assert w.ports[a.peer] == o && w.ports[a.peer := o] == w.ports;
  }

  lemma EnsureEndpointIsQuiet(s: Sys, bridge: string, ep: HostNetworkEndpoint)
    requires s.faults == [] && Goal(s.world, ep, bridge) && bridge in s.world.bridges
    requires EffectiveNetNS(ep) != ""
    ensures Quiet(s, EnsureEndpoint(s, bridge, ep).sys) && EnsureEndpoint(s, bridge, ep).ok
  {
    var a, w := NamesOf(ep), s.world;
    InnerConfigIsIdle(w, ep, bridge);
    PortCmdsAreIdle(w, ep, bridge);
    var v := ViewOf(w, a);
    assert a.ns in w.netns && w.netns[a.ns] && w.netns[a.ns := true] == w.netns;
    var n1 := Exec(s, NetnsList).sys;
    GentleExec(s, NetnsList);
    var n2 := Exec(n1, LoopbackUp(a.ns)).sys;
    GentleExec(n1, LoopbackUp(a.ns));
    QuietThen(s, n1, n2);
    assert EnsureNetNS(s, a.ns) == Out(n2, true);
    var l := Exec(n2, LinkShow(InnerKey(a))).sys;
    GentleExec(n2, LinkShow(InnerKey(a)));
    QuietThen(s, n2, l);
    assert EnsureInNetNS(n2, a) == Out(l, true);
    GentleScript(l, InnerConfig(a, ep.mac, ep.ip));
    var c := Script(l, InnerConfig(a, ep.mac, ep.ip)).sys;
    QuietThen(s, l, c);
    GentleScript(c, PortCmds(bridge, a.peer, ep.portID));
    QuietThen(s, c, Script(c, PortCmds(bridge, a.peer, ep.portID)).sys);
  }

  lemma {:induction false} EnsureAllIsQuiet(s: Sys, bridge: string, eps: seq<HostNetworkEndpoint>, desired: Active)
    requires s.faults == [] && bridge in s.world.bridges
    requires forall ep :: ep in eps && ep.vethName != "" ==> Goal(s.world, ep, bridge) && EffectiveNetNS(ep) != ""
    ensures var r := EnsureAll(s, bridge, eps, desired);
      Quiet(s, r.sys) && r.ok && r.desired == Keyed(eps, desired)
    decreases eps
  {
    if eps != [] {
      if eps[0].vethName == "" {
        EnsureAllIsQuiet(s, bridge, eps[1..], desired);
      } else {
        assert eps[0] in eps;
        EnsureEndpointIsQuiet(s, bridge, eps[0]);
        var e := EnsureEndpoint(s, bridge, eps[0]);
        EnsureAllIsQuiet(e.sys, bridge, eps[1..], desired[eps[0].vethName := Fill(eps[0])]);
        QuietThen(s, e.sys, EnsureAll(s, bridge, eps, desired).sys);
      }
    }
  }

  lemma {:induction false} NothingStale(s: Sys, bridge: string, active: Active, order: seq<string>)
    ensures RemoveStale(s, bridge, active, active, order) == s
    decreases order
  {
    if order != [] {
      NothingStale(s, bridge, active, order[..|order| - 1]);
    }
  }

  /** Idempotence: after a sync that returned no error, repeating it without faults issues no command that
      creates, moves or deletes, and ends in the identical world with the identical tracking map. */
  lemma RepeatedSyncIsIdle(
    g: Agent, bridge: string, op: Op, again: Op, names: set<Names>)
    requires Compatible(names) && AgentInv(g, names, bridge) && bridge in g.world.bridges
    requires op.Sync? && Lists(op.eps, names) && Distinct(op.eps) && Call(g, bridge, op).ok
    requires again.Sync? && again.eps == op.eps && again.faults == []
    ensures var h := After(g, bridge, op);
      && Call(h, bridge, again).ok && After(h, bridge, again) == h
      && forall e :: e in Call(h, bridge, again).sys.log ==> Gentle(e.cmd)
  {
    var h := After(g, bridge, op);
    SyncReachesGoals(g, bridge, op, names);
    EveryCommandKeeps(g, bridge, op, Issued(g, bridge, op), names, names);
    BridgesAreForeign(h.world, g.world, names);
    forall ep | ep in op.eps && ep.vethName != ""
      ensures Goal(h.world, ep, bridge) && EffectiveNetNS(ep) != ""
    {
      KeyedHolds(op.eps, map[], ep);
      FillKeepsGoal(h.world, ep, bridge);
    }
    var s := Start(h, again);
    EnsureAllIsQuiet(s, bridge, op.eps, map[]);
    var e := EnsureAll(s, bridge, op.eps, map[]);
    NothingStale(e.sys, bridge, h.active, again.order);
    assert e.sys.log[|s.log|..] == e.sys.log;
  }
}
