/** What every single command of every run keeps: where the ends of a managed veth pair may be, what belongs
    to other endpoints, and what belongs to others altogether. */
module Placement {
  import opened Api
  import opened Naming
  import opened Kernel
  import opened Command
  import opened NetworkSpec

  /** The commands that the agent may issue for the endpoint with names a. */
  predicate Owned(c: Cmd, a: Names, bridge: string) {
    match c
    case NetnsList => true
    case LinkShow(_) => true
    case NetnsAdd(n) => n == a.ns
    case LoopbackUp(n) => n == a.ns
    case NetnsDel(n) => n == a.ns
    case LinkAdd(h, p) => h == a.host && p == a.peer
    case LinkMove(h, n) => h == a.host && n == a.ns
    case SetMac(k, _) => k == InnerKey(a)
    case SetUp(k) => k == InnerKey(a) || k == PeerKey(a)
    case AddrReplace(k, _) => k == InnerKey(a)
    case LinkDel(k) => k == InnerKey(a) || k == PeerKey(a)
    case AddPort(b, p) => b == bridge && p == a.peer
    case SetIfaceID(p, _) => p == a.peer
    case DelPort(b, p) => b == bridge && p == a.peer
  }

  /** Both links are absent, or they are each other's peers with the peer end in the root namespace and the
      host end in root or in its own namespace, not both. Addresses are only on a host end in its namespace.
      The namespace holds nothing else, and the OVS port can only be on the agent's bridge. */
  ghost predicate Placed(w: World, a: Names, bridge: string) {
    && (PeerKey(a) in w.links <==> RootKey(a) in w.links || InnerKey(a) in w.links)
    && !(RootKey(a) in w.links && InnerKey(a) in w.links)
    && (RootKey(a) in w.links ==>
          && w.links[RootKey(a)].peer == Some(PeerKey(a)) && w.links[RootKey(a)].addrs == {}
          && w.links[PeerKey(a)].peer == Some(RootKey(a)))
    && (InnerKey(a) in w.links ==>
          && w.links[InnerKey(a)].peer == Some(PeerKey(a))
          && w.links[PeerKey(a)].peer == Some(InnerKey(a)))
    && (PeerKey(a) in w.links ==> w.links[PeerKey(a)].addrs == {})
    && (forall k :: k in w.links && k.ns == a.ns ==> k == InnerKey(a))
    && (a.peer in w.ports ==> w.ports[a.peer].bridge == bridge)
  }

  /** All that a world holds under the names a. */
  datatype View = View(
    ns: Option<bool>, root: Option<Link>, inner: Option<Link>, peer: Option<Link>, port: Option<OvsPort>)

  function ViewOf(w: World, a: Names): View {
    View(At(w.netns, a.ns), At(w.links, RootKey(a)), At(w.links, InnerKey(a)), At(w.links, PeerKey(a)),
         At(w.ports, a.peer))
  }

  const NOTHING := View(None, None, None, None, None)

  ghost predicate ManagedNS(names: set<Names>, n: string) {
    exists a :: a in names && a.ns == n
  }

  ghost predicate ManagedKey(names: set<Names>, k: Key) {
    exists a :: a in names && (k == RootKey(a) || k == PeerKey(a) || k.ns == a.ns)
  }

  ghost predicate ManagedPort(names: set<Names>, p: string) {
    exists a :: a in names && a.peer == p
  }

  /** The world less everything under managed names. */
  ghost function Foreign(w: World, names: set<Names>): World {
    World(map n | n in w.netns && !ManagedNS(names, n) :: w.netns[n],
          map k | k in w.links && !ManagedKey(names, k) :: w.links[k],
          w.bridges,
          map p | p in w.ports && !ManagedPort(names, p) :: w.ports[p])
  }

  /** The invariant of every reachable world. */
  ghost predicate Inv(w: World, names: set<Names>, bridge: string) {
    WellFormed(w) && forall a :: a in names ==> Placed(w, a, bridge)
  }

  lemma CommandKeepsPlaced(w: World, c: Cmd, a: Names, x: Names, bridge: string)
    requires Owned(c, a, bridge) && Sound(a) && Sound(x) && (a == x || Apart(a, x))
    requires WellFormed(w) && Placed(w, x, bridge)
    ensures Placed(Apply(w, c), x, bridge)
  {
    if c.LinkMove? {
      MoveKeepsPlaced(w, a, x, bridge);
    } else if c.LinkAdd? {
      AddKeepsPlaced(w, a, x, bridge);
    } else if c.NetnsDel? || c.LinkDel? {
      DeletionKeepsPlaced(w, c, a, x, bridge);
    } else {
      ChangeKeepsPlaced(w, c, a, x, bridge);
    }
  }

  lemma MoveKeepsPlaced(w: World, a: Names, x: Names, bridge: string)
    requires Sound(a) && Sound(x) && (a == x || Apart(a, x)) && WellFormed(w) && Placed(w, x, bridge)
    ensures Placed(Apply(w, LinkMove(a.host, a.ns)), x, bridge)
  {
  }

  lemma AddKeepsPlaced(w: World, a: Names, x: Names, bridge: string)
    requires Sound(a) && Sound(x) && (a == x || Apart(a, x)) && WellFormed(w) && Placed(w, x, bridge)
    ensures Placed(Apply(w, LinkAdd(a.host, a.peer)), x, bridge)
  {
  }

  lemma DeletionKeepsPlaced(w: World, c: Cmd, a: Names, x: Names, bridge: string)
    requires Owned(c, a, bridge) && (c.NetnsDel? || c.LinkDel?)
    requires Sound(a) && Sound(x) && (a == x || Apart(a, x)) && WellFormed(w) && Placed(w, x, bridge)
    ensures Placed(Apply(w, c), x, bridge)
  {
  }

  lemma ChangeKeepsPlaced(w: World, c: Cmd, a: Names, x: Names, bridge: string)
    requires Owned(c, a, bridge) && !c.NetnsDel? && !c.LinkDel? && !c.LinkMove? && !c.LinkAdd?
    requires Sound(a) && Sound(x) && (a == x || Apart(a, x)) && Placed(w, x, bridge)
    ensures Placed(Apply(w, c), x, bridge)
  {
  }

  lemma CommandKeepsOthers(w: World, c: Cmd, a: Names, x: Names, bridge: string)
    requires Owned(c, a, bridge) && Sound(a) && Sound(x) && Apart(a, x)
    requires WellFormed(w) && Placed(w, x, bridge)
    ensures ViewOf(Apply(w, c), x) == ViewOf(w, x)
  {
  }

  lemma CommandKeepsForeign(w: World, c: Cmd, a: Names, names: set<Names>, bridge: string)
    requires Owned(c, a, bridge) && a in names && Sound(a)
    requires WellFormed(w) && Placed(w, a, bridge)
    ensures Foreign(Apply(w, c), names) == Foreign(w, names)
  {
    var v := Apply(w, c);
    forall k
      ensures ManagedKey(names, k) || At(v.links, k) == At(w.links, k)
    {
      if k == RootKey(a) || k == PeerKey(a) || k.ns == a.ns {
        assert ManagedKey(names, k);
      } else {
        OnlyOwnLinksChange(w, c, a, k, bridge);
      }
    }
    forall n
      ensures ManagedNS(names, n) || At(v.netns, n) == At(w.netns, n)
      ensures ManagedPort(names, n) || At(v.ports, n) == At(w.ports, n)
    {
      if n == a.ns {
        assert ManagedNS(names, n);
      }
      if n == a.peer {
        assert ManagedPort(names, n);
      }
      OnlyOwnNamesChange(w, c, a, n, bridge);
    }
    SameForeign(w, v, names);
  }

  lemma SameForeign(w: World, v: World, names: set<Names>)
    requires v.bridges == w.bridges
    requires forall k :: ManagedKey(names, k) || At(v.links, k) == At(w.links, k)
    requires forall n :: ManagedNS(names, n) || At(v.netns, n) == At(w.netns, n)
    requires forall n :: ManagedPort(names, n) || At(v.ports, n) == At(w.ports, n)
    ensures Foreign(v, names) == Foreign(w, names)
  {
    var f, g := Foreign(v, names), Foreign(w, names);
    forall k ensures At(f.links, k) == At(g.links, k) {
      assert ManagedKey(names, k) || At(v.links, k) == At(w.links, k);
    }
    forall n ensures At(f.netns, n) == At(g.netns, n) && At(f.ports, n) == At(g.ports, n) {
      assert ManagedNS(names, n) || At(v.netns, n) == At(w.netns, n);
      assert ManagedPort(names, n) || At(v.ports, n) == At(w.ports, n);
    }
    SameMap(f.links, g.links);
    SameMap(f.netns, g.netns);
    SameMap(f.ports, g.ports);
  }

  lemma OnlyOwnNamesChange(w: World, c: Cmd, a: Names, n: string, bridge: string)
    requires Owned(c, a, bridge)
    ensures n != a.ns ==> At(Apply(w, c).netns, n) == At(w.netns, n)
    ensures n != a.peer ==> At(Apply(w, c).ports, n) == At(w.ports, n)
    ensures Apply(w, c).bridges == w.bridges
  {
  }

  lemma SameMap<K(!new), V>(m: map<K, V>, n: map<K, V>)
    requires forall k :: At(m, k) == At(n, k)
    ensures m == n
  {
    forall k ensures k in m <==> k in n {
      assert At(m, k) == At(n, k);
    }
    forall k | k in m ensures m[k] == n[k] {
      assert At(m, k) == At(n, k);
    }
  }

  lemma OnlyOwnLinksChange(w: World, c: Cmd, a: Names, k: Key, bridge: string)
    requires Owned(c, a, bridge) && Sound(a) && WellFormed(w) && Placed(w, a, bridge)
    requires k != RootKey(a) && k != PeerKey(a) && k.ns != a.ns
    ensures At(Apply(w, c).links, k) == At(w.links, k)
  {
  }

  // --- runs of owned commands

  ghost predicate AllOwned(es: seq<Event>, names: set<Names>, bridge: string) {
    forall e :: e in es ==> OwnedBySome(e.cmd, names, bridge)
  }

  ghost predicate OwnedBySome(c: Cmd, names: set<Names>, bridge: string) {
    exists a :: a in names && Owned(c, a, bridge)
  }

  /** t comes after s by commands owned by the given names only. */
  ghost predicate Acts(s: Sys, t: Sys, names: set<Names>, bridge: string) {
    Follows(s, t) && AllOwned(Since(s, t), names, bridge)
  }

  /** Whatever faults strike, a run of commands owned by the names in who keeps the invariant, changes
      nothing under any other managed name, and nothing foreign. */
  lemma {:induction false} OwnedCommandsKeep(
    w: World, es: seq<Event>, who: set<Names>, names: set<Names>, bridge: string)
    requires Compatible(names) && who <= names && Inv(w, names, bridge) && AllOwned(es, who, bridge)
    ensures Inv(Replay(w, es), names, bridge)
    ensures Foreign(Replay(w, es), names) == Foreign(w, names)
    ensures forall x :: x in names - who ==> ViewOf(Replay(w, es), x) == ViewOf(w, x)
    decreases |es|
  {
    if es != [] {
      var e := es[0];
      assert e in es;
      var a :| a in who && Owned(e.cmd, a, bridge);
      var v := Play(w, e);
      ApplyKeepsWellFormed(w, e.cmd);
      forall x | x in names
        ensures Placed(v, x, bridge)
        ensures x !in who ==> ViewOf(v, x) == ViewOf(w, x)
      {
        CommandKeepsPlaced(w, e.cmd, a, x, bridge);
        if x !in who {
          CommandKeepsOthers(w, e.cmd, a, x, bridge);
        }
      }
      CommandKeepsForeign(w, e.cmd, a, names, bridge);
      assert AllOwned(es[1..], who, bridge);
      OwnedCommandsKeep(v, es[1..], who, names, bridge);
    }
  }
}
