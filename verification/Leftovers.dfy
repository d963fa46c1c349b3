/** What stays behind: endpoints that a failed call has built and does not track, and stale endpoints whose
    deletion failed and which are forgotten all the same. When exactly, and for how long. */
module Leftovers {
  import opened Api
  import opened Naming
  import opened Kernel
  import opened Command
  import opened NetworkSpec
  import opened Placement
  import opened Ownership
  import opened Runs
  import opened Reconciliation

  // --- the removal code only looks and deletes

  predicate Deletes(c: Cmd) { c.NetnsList? || c.LinkShow? || c.DelPort? || c.LinkDel? || c.NetnsDel? }

  ghost predicate Deleting(s: Sys, t: Sys) {
    Follows(s, t) && forall e :: e in Since(s, t) ==> Deletes(e.cmd)
  }

  lemma DeletingThen(s: Sys, t: Sys, u: Sys)
    requires Deleting(s, t) && Deleting(t, u)
    ensures Deleting(s, u)
  {
    FollowsTransitive(s, t, u);
  }

  lemma ExecDeletes(s: Sys, c: Cmd)
    requires Deletes(c)
    ensures Deleting(s, Exec(s, c).sys)
  {
    ExecFollows(s, c);
  }

  lemma DeleteVethPairDeletes(s: Sys, a: Names)
    requires a.peer != ""
    ensures Deleting(s, DeleteVethPair(s, a).sys)
  {
    var p := LinkExists(s, PeerKey(a));
    ExecDeletes(s, LinkShow(PeerKey(a)));
    if p.found {
      ExecDeletes(p.sys, LinkDel(PeerKey(a)));
      DeletingThen(s, p.sys, Do(p.sys, LinkDel(PeerKey(a))).sys);
    } else {
      var h := LinkExists(p.sys, InnerKey(a));
      ExecDeletes(p.sys, LinkShow(InnerKey(a)));
      DeletingThen(s, p.sys, h.sys);
      if h.found {
        ExecDeletes(h.sys, LinkDel(InnerKey(a)));
        DeletingThen(s, h.sys, Do(h.sys, LinkDel(InnerKey(a))).sys);
      }
    }
  }

  lemma DeleteNetNSDeletes(s: Sys, name: string)
    ensures Deleting(s, DeleteNetNS(s, name).sys)
  {
    var e := NetNSExists(s, name);
    ExecDeletes(s, NetnsList);
    if e.ok && e.found {
      ExecDeletes(e.sys, NetnsDel(name));
      DeletingThen(s, e.sys, Do(e.sys, NetnsDel(name)).sys);
    }
  }

  lemma RemoveEndpointDeletes(s: Sys, bridge: string, hostIf: string, ep: HostNetworkEndpoint)
    ensures Deleting(s, RemoveEndpoint(s, bridge, hostIf, ep))
  {
    var a := Names(hostIf, PeerIfName(ep.vethName), ep.netNS);
    var p := Exec(s, DelPort(bridge, a.peer)).sys;
    var v := DeleteVethPair(p, a).sys;
    ExecDeletes(s, DelPort(bridge, a.peer));
    assert |a.peer| >= |"-ovs"|;
    DeleteVethPairDeletes(p, a);
    DeletingThen(s, p, v);
    if ep.netNS != "" {
      DeleteNetNSDeletes(v, ep.netNS);
      DeletingThen(s, v, DeleteNetNS(v, ep.netNS).sys);
    }
  }

  lemma {:induction false} RemoveStaleDeletes(
    s: Sys, bridge: string, active: Active, desired: Active, order: seq<string>)
    ensures Deleting(s, RemoveStale(s, bridge, active, desired, order))
    decreases order
  {
    if order != [] {
      var n := |order| - 1;
      var t := RemoveStale(s, bridge, active, desired, order[..n]);
      RemoveStaleDeletes(s, bridge, active, desired, order[..n]);
      var h := order[n];
      if h in active && h !in desired {
        RemoveEndpointDeletes(t, bridge, h, active[h]);
        DeletingThen(s, t, RemoveEndpoint(t, bridge, h, active[h]));
      }
    }
  }

  // --- what the log tells about an endpoint that is only deleted

  /** At some point of the log the command was issued and took effect. */
  ghost predicate Took(w: World, es: seq<Event>, c: Cmd)
    decreases es
  {
    es != [] && ((es[0].cmd == c && es[0].took && Accepts(w, c)) || Took(Play(w, es[0]), es[1..], c))
  }

  /** Everything there was under the names has had a deletion that took effect. The pair also goes with its
      namespace, but only if the host end is inside. */
  ghost predicate Cleaned(w: World, es: seq<Event>, x: Names, bridge: string) {
    && (x.peer in w.ports ==> Took(w, es, DelPort(bridge, x.peer)))
    && (x.ns in w.netns ==> Took(w, es, NetnsDel(x.ns)))
    && (PeerKey(x) in w.links ==>
          || Took(w, es, LinkDel(PeerKey(x)))
          || (InnerKey(x) in w.links && (Took(w, es, LinkDel(InnerKey(x))) || Took(w, es, NetnsDel(x.ns)))))
  }

  /** A command of another endpoint, or one that looks or deletes for this one. */
  ghost predicate SparesOrDeletes(c: Cmd, x: Names, names: set<Names>, bridge: string) {
    (Deletes(c) && Owned(c, x, bridge)) || OwnedBySome(c, names - {x}, bridge)
  }

  lemma OwnDeletionStep(w: World, es: seq<Event>, x: Names, bridge: string)
    requires Sound(x) && WellFormed(w) && Placed(w, x, bridge)
    requires es != [] && Deletes(es[0].cmd) && Owned(es[0].cmd, x, bridge)
    ensures Cleaned(w, es, x, bridge) <==> Cleaned(Play(w, es[0]), es[1..], x, bridge)
  {
  }

  lemma OtherStep(w: World, es: seq<Event>, a: Names, x: Names, bridge: string)
    requires Sound(a) && Sound(x) && Apart(a, x) && WellFormed(w) && Placed(w, x, bridge)
    requires es != [] && Owned(es[0].cmd, a, bridge)
    ensures Cleaned(w, es, x, bridge) <==> Cleaned(Play(w, es[0]), es[1..], x, bridge)
  {
    CommandKeepsOthers(w, es[0].cmd, a, x, bridge);
    var v := ViewOf(Play(w, es[0]), x);
    assert v == ViewOf(w, x);
  }

  /** Read off the log: nothing is left under the names exactly if every part that was there was deleted. */
  lemma {:induction false} NothingLeftIff(w: World, es: seq<Event>, x: Names, names: set<Names>, bridge: string)
    requires Compatible(names) && x in names && Inv(w, names, bridge)
    requires forall e :: e in es ==> SparesOrDeletes(e.cmd, x, names, bridge)
    ensures ViewOf(Replay(w, es), x) == NOTHING <==> Cleaned(w, es, x, bridge)
    decreases es
  {
    if es == [] {
      NothingIff(w, x, bridge);
    } else {
      var e := es[0];
      if Deletes(e.cmd) && Owned(e.cmd, x, bridge) {
        OwnDeletionStep(w, es, x, bridge);
        OneCommandKeeps(w, e, x, names, bridge);
      } else {
        var a :| a in names - {x} && Owned(e.cmd, a, bridge);
        OtherStep(w, es, a, x, bridge);
        OneCommandKeeps(w, e, a, names, bridge);
      }
      NothingLeftIff(Play(w, e), es[1..], x, names, bridge);
    }
  }

  lemma NothingIff(w: World, x: Names, bridge: string)
    requires Placed(w, x, bridge)
    ensures ViewOf(w, x) == NOTHING <==> x.peer !in w.ports && x.ns !in w.netns && PeerKey(x) !in w.links
  {
  }

  lemma OneCommandKeeps(w: World, e: Event, a: Names, names: set<Names>, bridge: string)
    requires Compatible(names) && a in names && Inv(w, names, bridge) && Owned(e.cmd, a, bridge)
    ensures Inv(Play(w, e), names, bridge)
  {
    assert OwnedBySome(e.cmd, names, bridge);
    OwnedCommandsKeep(w, [e], names, names, bridge);
    assert Replay(w, [e]) == Play(w, e);
  }

  // --- whole calls

  ghost function Listed(op: Op): set<Names> { if Syncs(op) then ListedNames(op.eps) else {} }

  lemma ActsSpare(s: Sys, t: Sys, who: set<Names>, x: Names, names: set<Names>, bridge: string)
    requires Acts(s, t, who, bridge) && who <= names && (x !in who || Deleting(s, t))
    ensures forall e :: e in Since(s, t) ==> SparesOrDeletes(e.cmd, x, names, bridge)
  {
    forall e | e in Since(s, t)
      ensures SparesOrDeletes(e.cmd, x, names, bridge)
    {
      assert OwnedBySome(e.cmd, who, bridge);
      var a :| a in who && Owned(e.cmd, a, bridge);
      assert a == x || a in names - {x};
    }
  }

  /** Of an endpoint that it does not list, a call only deletes. */
  lemma CallSparesOrDeletes(g: Agent, bridge: string, op: Op, x: Names, names: set<Names>)
    requires Tracks(g.active, names) && OpLists(op, names) && x !in Listed(op)
    ensures forall e :: e in Call(g, bridge, op).sys.log ==> SparesOrDeletes(e.cmd, x, names, bridge)
  {
    var s := Start(g, op);
    if Syncs(op) {
      var e := EnsureAll(s, bridge, op.eps, map[]);
      EnsureAllActs(s, bridge, op.eps, map[], Listed(op), names);
      ActsSpare(s, e.sys, Listed(op), x, names, bridge);
      if e.ok {
        RemovalSpares(e.sys, bridge, g.active, e.desired, op.order, x, names);
        FollowsTransitive(s, e.sys, RemoveStale(e.sys, bridge, g.active, e.desired, op.order));
      }
    } else if !op.Restart? {
      RemovalSpares(s, bridge, g.active, map[], op.order, x, names);
    }
    var t := Call(g, bridge, op).sys;
    assert Since(s, t) == t.log;
  }

  lemma RemovalSpares(
    s: Sys, bridge: string, active: Active, desired: Active, order: seq<string>, x: Names, names: set<Names>)
    requires Tracks(active, names)
    ensures var t := RemoveStale(s, bridge, active, desired, order);
      Follows(s, t) && forall e :: e in Since(s, t) ==> SparesOrDeletes(e.cmd, x, names, bridge)
  {
    RemoveStaleActs(s, bridge, active, desired, order, names);
    RemoveStaleDeletes(s, bridge, active, desired, order);
    ActsSpare(s, RemoveStale(s, bridge, active, desired, order), TrackedNames(active, desired.Keys), x, names, bridge);
  }

  /** After any number of commands of a call under any faults, an endpoint that the call does not list has left
      nothing exactly if the log shows that each of its parts was deleted. */
  lemma LeftBehindIff(g: Agent, bridge: string, op: Op, k: nat, x: Names, names: set<Names>)
    requires Compatible(names) && AgentInv(g, names, bridge) && OpLists(op, names) && x in names - Listed(op)
    ensures ViewOf(WorldAt(g, bridge, op, k), x) == NOTHING
      <==> Cleaned(g.world, LogUpTo(g, bridge, op, k), x, bridge)
  {
    CallSparesOrDeletes(g, bridge, op, x, names);
    NothingLeftIff(g.world, LogUpTo(g, bridge, op, k), x, names, bridge);
  }

  /** A call that returns without error forgets every endpoint that it does not list, deleted or not. What of it the
      log does not show as deleted stays for as long as no later call lists it. */
  lemma ForgottenUnlessDeleted(
    g: Agent, bridge: string, op: Op, later: seq<Op>, x: Names, names: set<Names>)
    requires Compatible(names) && AgentInv(g, names, bridge) && OpLists(op, names) && x in names - Listed(op)
    requires (op.Sync? && Call(g, bridge, op).ok) || op.Cleanup?
    requires OpsList(later, names - {x})
    ensures var h, log := After(g, bridge, op), Call(g, bridge, op).sys.log;
      && x.host !in h.active
      && ViewOf(Run(h, bridge, later).world, x) == ViewOf(h.world, x)
      && (ViewOf(h.world, x) == NOTHING <==> Cleaned(g.world, log, x, bridge))
  {
    var h := After(g, bridge, op);
    Untracked(g, bridge, op, x, names);
    EveryCommandKeeps(g, bridge, op, Issued(g, bridge, op), names, names);
    LeftBehindIff(g, bridge, op, Issued(g, bridge, op), x, names);
    assert LogUpTo(g, bridge, op, Issued(g, bridge, op)) == Call(g, bridge, op).sys.log;
    ForgottenStays(h, bridge, later, names - {x}, x, names);
  }

  lemma Untracked(g: Agent, bridge: string, op: Op, x: Names, names: set<Names>)
    requires Compatible(names) && Tracks(g.active, names) && OpLists(op, names) && x in names - Listed(op)
    requires (op.Sync? && Call(g, bridge, op).ok) || op.Cleanup?
    ensures x.host !in After(g, bridge, op).active
  {
    if op.Sync? {
      EnsureAllActs(Start(g, op), bridge, op.eps, map[], Listed(op), names - {x});
      NotTracked(After(g, bridge, op).active, x, names - {x}, names);
    }
  }

  /** Without faults: exactly the tracked endpoints and those that had left nothing anyway are gone. What was never
      tracked, because an earlier call failed after building it, stays. */
  lemma CleanCallCleansIff(g: Agent, bridge: string, op: Op, x: Names, names: set<Names>)
    requires Compatible(names) && AgentInv(g, names, bridge) && CleanOp(g, op, names) && bridge in g.world.bridges
    requires x in names - Listed(op)
    ensures ViewOf(After(g, bridge, op).world, x) == NOTHING
      <==> x.host in g.active || ViewOf(g.world, x) == NOTHING
  {
    var listed := Listed(op);
    if x.host !in g.active {
      assert OpLists(op, listed);
      assert x !in TrackedNames(g.active, {});
      EveryCommandKeeps(g, bridge, op, Issued(g, bridge, op), listed, names);
    } else {
      TrackedIsCleared(g, bridge, op, x, names);
    }
  }

  lemma TrackedIsCleared(g: Agent, bridge: string, op: Op, x: Names, names: set<Names>)
    requires Compatible(names) && AgentInv(g, names, bridge) && CleanOp(g, op, names) && bridge in g.world.bridges
    requires x in names - Listed(op) && x.host in g.active
    ensures ViewOf(After(g, bridge, op).world, x) == NOTHING
  {
    var s, y := Start(g, op), NamesOf(g.active[x.host]);
    assert y == x || Apart(y, x);
    if op.Sync? {
      var e := EnsureAll(s, bridge, op.eps, map[]);
      EnsureAllDone(s, bridge, op.eps, map[], names);
      Untracked(g, bridge, op, x, names);
      StaleRemovalClears(e.sys, bridge, g.active, e.desired, op.order, names);
    } else {
      StaleRemovalClears(s, bridge, g.active, map[], op.order, names);
    }
  }

  // --- that it happens

  const FAILS := Fault(OtherText, false)

  /** From a clean host: a sync fails on its third command, the next one has an empty list and returns no error, and
      the namespace that the first one made stays, whatever later calls do that do not list the endpoint. */
  lemma EarlyErrorLeavesANamespace(
    g: Agent, bridge: string, ep: HostNetworkEndpoint, later: seq<Op>, names: set<Names>)
    requires Compatible(names) && Untouched(g, names)
    requires ep.vethName != "" && EffectiveNetNS(ep) != "" && NamesOf(ep) in names
    requires OpsList(later, names - {NamesOf(ep)})
    ensures var fails, again := Sync([ep], [], [Clean, Clean, FAILS]), Sync([], [], []);
      var f := After(g, bridge, fails); var h := After(f, bridge, again);
      && !Call(g, bridge, fails).ok && Call(f, bridge, again).ok && h.active == map[]
      && ViewOf(Run(h, bridge, later).world, NamesOf(ep)).ns == Some(false)
  {
    var x, fails, again := NamesOf(ep), Sync([ep], [], [Clean, Clean, FAILS]), Sync([], [], []);
    var f := After(g, bridge, fails);
    ThirdCommandFails(g, bridge, ep, names);
    UntouchedIsInv(g, names, bridge);
    assert Lists([ep], names);
    EveryCommandKeeps(g, bridge, fails, Issued(g, bridge, fails), names, names);
    assert Lists([], names - {x});
    ForgottenStays(f, bridge, [again] + later, names - {x}, x, names);
    assert ([again] + later)[1..] == later;
  }

  lemma ThirdCommandFails(g: Agent, bridge: string, ep: HostNetworkEndpoint, names: set<Names>)
    requires Untouched(g, names) && ep.vethName != "" && EffectiveNetNS(ep) != "" && NamesOf(ep) in names
    ensures var fails := Sync([ep], [], [Clean, Clean, FAILS]); var f := After(g, bridge, fails);
      !Call(g, bridge, fails).ok && f.active == map[] && ViewOf(f.world, NamesOf(ep)).ns == Some(false)
  {
    var s := Start(g, Sync([ep], [], [Clean, Clean, FAILS]));
    var n := NamesOf(ep).ns;
    assert ViewOf(g.world, NamesOf(ep)).ns == None;
    assert [Clean, Clean, FAILS][1..] == [Clean, FAILS] && [Clean, FAILS][1..] == [FAILS];
    var e := NetNSExists(s, n);
    assert e.sys.faults == [Clean, FAILS] && e.ok && !e.found;
    var a := AddNetNS(e.sys, n);
    assert a.ok && a.sys.faults == [FAILS] && a.sys.world.netns == g.world.netns[n := false];
    assert !EnsureNetNS(s, n).ok && EnsureNetNS(s, n).sys.world == a.sys.world;
  }

  /** When each command of a deletion fails, the call returns no error, tracks nothing, and leaves all as it was. */
  lemma DeletionsMayAllFail(g: Agent, bridge: string, h: string, names: set<Names>)
    requires Tracks(g.active, names) && g.active.Keys == {h}
    ensures var op := Sync([], [h], [FAILS, FAILS, FAILS, FAILS]);
      Call(g, bridge, op).ok && After(g, bridge, op) == Agent(g.world, map[])
  {
    var op := Sync([], [h], [FAILS, FAILS, FAILS, FAILS]);
    var s := Start(g, op);
    FourFailures(s, bridge, g.active[h]);
    assert [h][..0] == [];
    assert RemoveStale(s, bridge, g.active, map[], [h]) == RemoveEndpoint(s, bridge, h, g.active[h]);
  }

  lemma FourFailures(s: Sys, bridge: string, ep: HostNetworkEndpoint)
    requires s.faults == [FAILS, FAILS, FAILS, FAILS] && ep.netNS != ""
    ensures RemoveEndpoint(s, bridge, ep.vethName, ep).world == s.world
  {
  }
}
