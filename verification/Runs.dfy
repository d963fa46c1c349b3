/** Runs of the agent: host syncs, shutdowns, restarts, and syncs and shutdowns cut off by a crash of the agent
    after any number of commands; each call under its own schedule of faults. */
module Runs {
  import opened Api
  import opened Naming
  import opened Kernel
  import opened Command
  import opened NetworkSpec
  import opened Placement
  import opened Ownership

  datatype Op =
    | Sync(eps: seq<HostNetworkEndpoint>, order: seq<string>, faults: seq<Fault>)
    | Cleanup(order: seq<string>, faults: seq<Fault>)
    | Restart
    | SyncCrash(eps: seq<HostNetworkEndpoint>, order: seq<string>, faults: seq<Fault>, cut: nat)
    | CleanupCrash(order: seq<string>, faults: seq<Fault>, cut: nat)

  datatype Agent = Agent(world: World, active: Active)

  predicate Syncs(op: Op) { op.Sync? || op.SyncCrash? }
  predicate Crashes(op: Op) { op.SyncCrash? || op.CleanupCrash? }

  function Start(g: Agent, op: Op): Sys {
    Sys(g.world, if op.Restart? then [] else op.faults, [])
  }

  /** One call, to its return. */
  function Call(g: Agent, bridge: string, op: Op): Reconciled {
    if op.Restart? then Reconciled(Start(g, op), map[], true)
    else if Syncs(op) then Reconcile(Start(g, op), bridge, g.active, op.eps, op.order)
    else Reconciled(RemoveStale(Start(g, op), bridge, g.active, map[], op.order), map[], true)
  }

  /** The first k commands of the call, or all of them. */
  function LogUpTo(g: Agent, bridge: string, op: Op, k: nat): seq<Event> {
    var log := Call(g, bridge, op).sys.log;
    if k <= |log| then log[..k] else log
  }

  /** The world once the first k commands of the call are over. */
  function WorldAt(g: Agent, bridge: string, op: Op, k: nat): World {
    Replay(g.world, LogUpTo(g, bridge, op, k))
  }

  function After(g: Agent, bridge: string, op: Op): Agent {
    var r := Call(g, bridge, op);
    if Crashes(op) then Agent(WorldAt(g, bridge, op, op.cut), map[]) else Agent(r.sys.world, r.active)
  }

  /** How many commands the call issued before it returned or crashed. */
  function Issued(g: Agent, bridge: string, op: Op): nat {
    if Crashes(op) then op.cut else |Call(g, bridge, op).sys.log|
  }

  function Run(g: Agent, bridge: string, ops: seq<Op>): Agent
    decreases ops
  {
    if ops == [] then g else Run(After(g, bridge, ops[0]), bridge, ops[1..])
  }

  ghost predicate OpLists(op: Op, names: set<Names>) {
    Syncs(op) ==> Lists(op.eps, names)
  }

  ghost predicate OpsList(ops: seq<Op>, names: set<Names>) {
    forall op :: op in ops ==> OpLists(op, names)
  }

  ghost predicate AgentInv(g: Agent, names: set<Names>, bridge: string) {
    Inv(g.world, names, bridge) && Tracks(g.active, names)
  }

  /** A host on which nothing uses the managed names, and an agent that has just started. */
  ghost predicate Untouched(g: Agent, names: set<Names>) {
    WellFormed(g.world) && g.active == map[] && forall a :: a in names ==> ViewOf(g.world, a) == NOTHING
  }

  lemma UntouchedIsInv(g: Agent, names: set<Names>, bridge: string)
    requires Compatible(names) && Untouched(g, names)
    ensures AgentInv(g, names, bridge)
  {
    forall a | a in names
      ensures Placed(g.world, a, bridge)
    {
      var v := ViewOf(g.world, a);
      assert v.ns == None && v.root == None && v.inner == None && v.peer == None && v.port == None;
    }
  }

  /** Every command of a call is owned by a listed or a tracked endpoint. */
  lemma CallActs(g: Agent, bridge: string, op: Op, listed: set<Names>, names: set<Names>)
    requires Tracks(g.active, names) && OpLists(op, listed) && listed <= names
    ensures var r := Call(g, bridge, op);
      && AllOwned(r.sys.log, listed + TrackedNames(g.active, {}), bridge)
      && r.sys.world == Replay(g.world, r.sys.log)
      && Tracks(r.active, names)
  {
    var s, r := Start(g, op), Call(g, bridge, op);
    var who := listed + TrackedNames(g.active, {});
    if Syncs(op) {
      ReconcileActs(s, bridge, g.active, op.eps, op.order, listed, names);
    } else if !op.Restart? {
      RemoveStaleActs(s, bridge, g.active, map[], op.order, names);
      ActsMore(s, r.sys, TrackedNames(g.active, {}), who, bridge);
    }
    assert Since(s, r.sys) == r.sys.log;
  }

  /** Every world in the course of a call: the invariant holds, nothing foreign has changed, and nothing
      under a name that is neither listed nor tracked has changed. */
  lemma EveryCommandKeeps(
    g: Agent, bridge: string, op: Op, k: nat, listed: set<Names>, names: set<Names>)
    requires Compatible(names) && AgentInv(g, names, bridge) && OpLists(op, listed) && listed <= names
    ensures var w := WorldAt(g, bridge, op, k);
      && Inv(w, names, bridge)
      && Foreign(w, names) == Foreign(g.world, names)
      && forall x :: x in names - listed - TrackedNames(g.active, {}) ==> ViewOf(w, x) == ViewOf(g.world, x)
    ensures AgentInv(After(g, bridge, op), names, bridge)
    ensures WorldAt(g, bridge, op, Issued(g, bridge, op)) == After(g, bridge, op).world
  {
    CallActs(g, bridge, op, listed, names);
    var who := listed + TrackedNames(g.active, {});
    OwnedCommandsKeep(g.world, LogUpTo(g, bridge, op, k), who, names, bridge);
    OwnedCommandsKeep(g.world, LogUpTo(g, bridge, op, Issued(g, bridge, op)), who, names, bridge);
    IssuedAreAll(g, bridge, op);
  }

  lemma IssuedAreAll(g: Agent, bridge: string, op: Op)
    requires var r := Call(g, bridge, op); r.sys.world == Replay(g.world, r.sys.log)
    ensures WorldAt(g, bridge, op, Issued(g, bridge, op)) == After(g, bridge, op).world
  {
    var log := Call(g, bridge, op).sys.log;
    assert log[..|log|] == log;
  }

  lemma {:induction false} RunKeeps(g: Agent, bridge: string, ops: seq<Op>, names: set<Names>)
    requires Compatible(names) && AgentInv(g, names, bridge) && OpsList(ops, names)
    ensures var h := Run(g, bridge, ops);
      AgentInv(h, names, bridge) && Foreign(h.world, names) == Foreign(g.world, names)
    decreases ops
  {
    if ops != [] {
      var op, h := ops[0], After(g, bridge, ops[0]);
      EveryCommandKeeps(g, bridge, op, Issued(g, bridge, op), names, names);
      RunKeeps(h, bridge, ops[1..], names);
    }
  }

  /** The worlds a run can be in: some calls have returned, and the next has issued some of its commands. */
  ghost predicate Reachable(w: World, g: Agent, bridge: string, names: set<Names>) {
    exists ops: seq<Op>, op, k: nat ::
      OpsList(ops, names) && OpLists(op, names) && w == WorldAt(Run(g, bridge, ops), bridge, op, k)
  }

  /** Placement, command by command, through every run and every fault. */
  lemma PlacementInEveryReachableWorld(w: World, g: Agent, bridge: string, names: set<Names>)
    requires Compatible(names) && Untouched(g, names) && Reachable(w, g, bridge, names)
    ensures WellFormed(w) && Foreign(w, names) == Foreign(g.world, names)
    ensures forall a :: a in names ==> Placed(w, a, bridge)
    ensures forall a :: a in names && RootKey(a) !in w.links && InnerKey(a) !in w.links ==>
      Accepts(w, LinkAdd(a.host, a.peer))
  {
    var ops: seq<Op>, op, k: nat :|
      OpsList(ops, names) && OpLists(op, names) && w == WorldAt(Run(g, bridge, ops), bridge, op, k);
    UntouchedIsInv(g, names, bridge);
    RunKeeps(g, bridge, ops, names);
    EveryCommandKeeps(Run(g, bridge, ops), bridge, op, k, names, names);
  }

  /** Isolation: whatever is in the root namespace either carries no address or was there from the start, and
      a managed namespace holds the host interface of its own endpoint and no other link. */
  lemma IsolationInEveryReachableWorld(w: World, g: Agent, bridge: string, names: set<Names>)
    requires Compatible(names) && Untouched(g, names) && Reachable(w, g, bridge, names)
    ensures forall k :: k in w.links && k.ns == "" ==>
      w.links[k].addrs == {} || (k in g.world.links && g.world.links[k] == w.links[k])
    ensures forall a, b, k :: a in names && b in names && k in w.links && k.ns == a.ns ==>
      k.name == a.host && (k.name == b.host ==> a == b)
  {
    PlacementInEveryReachableWorld(w, g, bridge, names);
    forall k | k in w.links && k.ns == ""
      ensures w.links[k].addrs == {} || (k in g.world.links && g.world.links[k] == w.links[k])
    {
      if ManagedKey(names, k) {
        var a :| a in names && (k == RootKey(a) || k == PeerKey(a) || k.ns == a.ns);
        assert Placed(w, a, bridge) && Sound(a);
      } else {
        assert Foreign(w, names).links[k] == w.links[k];
        assert k in Foreign(g.world, names).links;
      }
    }
    forall a, b, k | a in names && b in names && k in w.links && k.ns == a.ns
      ensures k.name == a.host && (k.name == b.host ==> a == b)
    {
      assert Placed(w, a, bridge);
      assert a == b || Apart(a, b);
    }
  }

  /** What no call lists and no call tracks is never touched again: an endpoint whose deletion failed stays. */
  lemma {:induction false} ForgottenStays(
    g: Agent, bridge: string, ops: seq<Op>, listed: set<Names>, x: Names, names: set<Names>)
    requires Compatible(names) && AgentInv(g, names, bridge)
    requires x in names && listed <= names - {x} && OpsList(ops, listed) && x.host !in g.active
    ensures ViewOf(Run(g, bridge, ops).world, x) == ViewOf(g.world, x)
    decreases ops
  {
    if ops != [] {
      var op, h := ops[0], After(g, bridge, ops[0]);
      assert OpLists(op, listed);
      EveryCommandKeeps(g, bridge, op, Issued(g, bridge, op), listed, names);
      TracksListed(g, bridge, op, listed, x, names);
      ForgottenStays(h, bridge, ops[1..], listed, x, names);
    }
  }

  lemma NotTracked(active: Active, x: Names, but: set<Names>, names: set<Names>)
    requires Compatible(names) && x in names && but <= names - {x} && Tracks(active, but)
    ensures x.host !in active
  {
    assert forall h :: h in active ==> NamesOf(active[h]) in but && NamesOf(active[h]).host == h;
  }

  lemma TracksListed(g: Agent, bridge: string, op: Op, listed: set<Names>, x: Names, names: set<Names>)
    requires Compatible(names) && x in names && listed <= names - {x}
    requires Tracks(g.active, names) && OpLists(op, listed) && x.host !in g.active
    ensures x.host !in After(g, bridge, op).active && x !in TrackedNames(g.active, {})
  {
    assert x !in TrackedNames(g.active, {});
    if op.Sync? {
      var s := Start(g, op);
      var e := EnsureAll(s, bridge, op.eps, map[]);
      EnsureAllActs(s, bridge, op.eps, map[], listed, listed);
      NotTracked(e.desired, x, listed, names);
    }
  }
}
