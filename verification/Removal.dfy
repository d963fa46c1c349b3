/** What the deletion of one endpoint issues under any faults: each of its three parts is tried, whatever became of
    the parts before. */
module Removal {
  import opened Api
  import opened Naming
  import opened Kernel
  import opened Command
  import opened Order
  import opened NetworkSpec
  import opened Placement
  import opened Ownership
  import opened Runs
  import opened Reconciliation
  import opened Leftovers

  predicate Succeeded(e: Event) { e.reply.Ok? }

  /** The pair: a look at the peer end, and its deletion if the look succeeded; else a look at the host end, and its
      deletion if that look succeeded. */
  predicate PairTried(es: seq<Event>, x: Names) {
    && |es| >= 2 && es[0].cmd == LinkShow(PeerKey(x))
    && if Succeeded(es[0]) then |es| == 2 && es[1].cmd == LinkDel(PeerKey(x))
       else
         && es[1].cmd == LinkShow(InnerKey(x))
         && if Succeeded(es[1]) then |es| == 3 && es[2].cmd == LinkDel(InnerKey(x)) else |es| == 2
  }

  /** The namespace: a listing, and the deletion if the listing succeeded and showed it. */
  predicate NamespaceTried(w: World, es: seq<Event>, x: Names) {
    && |es| >= 1 && es[0].cmd == NetnsList
    && if Succeeded(es[0]) && x.ns in w.netns then |es| == 2 && es[1].cmd == NetnsDel(x.ns) else |es| == 1
  }

  /** Where the part about the pair ends. */
  function PairEnd(es: seq<Event>): nat {
    if |es| >= 3 && !Succeeded(es[1]) && Succeeded(es[2]) then 4 else 3
  }

  /** All that the deletion of x issues from the world w on: the port, then the pair, then the namespace. */
  ghost predicate Tried(w: World, es: seq<Event>, x: Names, bridge: string) {
    && PairEnd(es) <= |es|
    && es[0].cmd == DelPort(bridge, x.peer)
    && PairTried(es[1..PairEnd(es)], x)
    && NamespaceTried(Replay(w, es[..PairEnd(es)]), es[PairEnd(es)..], x)
  }

  lemma DeleteVethPairTries(s: Sys, x: Names)
    requires x.peer != ""
    ensures var t := DeleteVethPair(s, x).sys; Follows(s, t) && PairTried(Since(s, t), x)
    ensures var es := Since(s, DeleteVethPair(s, x).sys); var last := es[|es| - 1];
      DeleteVethPair(s, x).ok <==> (last.cmd.LinkDel? ==> Succeeded(last))
  {
    var p := LinkExists(s, PeerKey(x));
    ExecFollows(s, LinkShow(PeerKey(x)));
    if p.found {
      ExecFollows(p.sys, LinkDel(PeerKey(x)));
      FollowsTransitive(s, p.sys, Do(p.sys, LinkDel(PeerKey(x))).sys);
    } else {
      var h := LinkExists(p.sys, InnerKey(x));
      ExecFollows(p.sys, LinkShow(InnerKey(x)));
      FollowsTransitive(s, p.sys, h.sys);
      if h.found {
        ExecFollows(h.sys, LinkDel(InnerKey(x)));
        FollowsTransitive(s, h.sys, Do(h.sys, LinkDel(InnerKey(x))).sys);
      }
    }
  }

  lemma DeleteNetNSTries(s: Sys, x: Names)
    ensures var t := DeleteNetNS(s, x.ns).sys; Follows(s, t) && NamespaceTried(s.world, Since(s, t), x)
    ensures var es := Since(s, DeleteNetNS(s, x.ns).sys); DeleteNetNS(s, x.ns).ok <==> Succeeded(es[|es| - 1])
  {
    var e := NetNSExists(s, x.ns);
    ExecFollows(s, NetnsList);
    if e.ok && e.found {
      ExecFollows(e.sys, NetnsDel(x.ns));
      FollowsTransitive(s, e.sys, Do(e.sys, NetnsDel(x.ns)).sys);
    }
  }

  /** No error of one part keeps the next from being tried. */
  lemma RemoveEndpointTries(s: Sys, bridge: string, ep: HostNetworkEndpoint)
    requires ep.netNS != ""
    ensures var t := RemoveEndpoint(s, bridge, ep.vethName, ep);
      Follows(s, t) && Tried(s.world, Since(s, t), NamesOf(ep), bridge)
  {
    var x := NamesOf(ep);
    var p := Exec(s, DelPort(bridge, x.peer)).sys;
    var v := DeleteVethPair(p, x).sys;
    var t := DeleteNetNS(v, x.ns).sys;
    assert |x.peer| >= |"-ovs"|;
    ExecFollows(s, DelPort(bridge, x.peer));
    DeleteVethPairTries(p, x);
    DeleteNetNSTries(v, x);
    FollowsTransitive(s, p, v);
    FollowsTransitive(s, v, t);
    PartsAreTried(s.world, Since(s, p)[0], Since(p, v), Since(v, t), x, bridge);
  }

  lemma PartsAreTried(w: World, e: Event, pair: seq<Event>, rest: seq<Event>, x: Names, bridge: string)
    requires e.cmd == DelPort(bridge, x.peer) && PairTried(pair, x)
    requires NamespaceTried(Replay(w, [e] + pair), rest, x)
    ensures Tried(w, [e] + pair + rest, x, bridge)
  {
    var es := [e] + pair + rest;
    assert |pair| + 1 == PairEnd(es);
    assert es[1..|pair| + 1] == pair && es[..|pair| + 1] == [e] + pair && es[|pair| + 1..] == rest;
  }

  // --- the deletion loop and whole calls

  /** A kind of part of a log, seen from the world in which the part starts. */
  type Part = (World, seq<Event>) -> bool

  ghost function RemovalOf(x: Names, bridge: string): Part {
    (w: World, es: seq<Event>) => Tried(w, es, x, bridge)
  }

  ghost predicate PartAt(w: World, es: seq<Event>, i: int, j: int, part: Part) {
    0 <= i <= j <= |es| && part(Replay(w, es[..i]), es[i..j])
  }

  /** The log has such a part. */
  ghost predicate HasPart(w: World, es: seq<Event>, part: Part) {
    exists i, j :: PartAt(w, es, i, j, part)
  }

  lemma PartInLonger(w: World, es: seq<Event>, more: seq<Event>, part: Part)
    requires HasPart(w, es, part)
    ensures HasPart(w, es + more, part)
  {
    var i, j :| PartAt(w, es, i, j, part);
    assert (es + more)[..i] == es[..i] && (es + more)[i..j] == es[i..j];
    assert PartAt(w, es + more, i, j, part);
  }

  lemma PartLater(w: World, past: seq<Event>, es: seq<Event>, part: Part)
    requires HasPart(Replay(w, past), es, part)
    ensures HasPart(w, past + es, part)
  {
    var i, j :| PartAt(Replay(w, past), es, i, j, part);
    var all, n := past + es, |past|;
    assert all[..n + i] == past + es[..i] && all[n + i..n + j] == es[i..j];
    ReplayConcat(w, past, es[..i]);
    assert PartAt(w, all, n + i, n + j, part);
  }

  lemma WholeIsPart(w: World, es: seq<Event>, part: Part)
    requires part(w, es)
    ensures HasPart(w, es, part)
  {
    assert es[..0] == [] && es[0..|es|] == es;
    assert PartAt(w, es, 0, |es|, part);
  }

  /** Of a run in two stretches, s to m and m to t, what either has the whole has. */
  lemma StretchesHave(s: Sys, m: Sys, t: Sys, part: Part)
    requires Follows(s, m) && Follows(m, t)
    ensures Follows(s, t)
    ensures HasPart(s.world, Since(s, m), part) || HasPart(m.world, Since(m, t), part) ==>
      HasPart(s.world, Since(s, t), part)
  {
    FollowsTransitive(s, m, t);
    if HasPart(s.world, Since(s, m), part) {
      PartInLonger(s.world, Since(s, m), Since(m, t), part);
    }
    if HasPart(m.world, Since(m, t), part) {
      PartLater(s.world, Since(s, m), Since(m, t), part);
    }
  }

  lemma RemoveOneTries(s: Sys, bridge: string, ep: HostNetworkEndpoint)
    requires ep.netNS != ""
    ensures var t := RemoveEndpoint(s, bridge, ep.vethName, ep);
      Follows(s, t) && HasPart(s.world, Since(s, t), RemovalOf(NamesOf(ep), bridge))
  {
    var t := RemoveEndpoint(s, bridge, ep.vethName, ep);
    RemoveEndpointTries(s, bridge, ep);
    WholeIsPart(s.world, Since(s, t), RemovalOf(NamesOf(ep), bridge));
  }

  lemma {:induction false} RemoveStaleTries(
    s: Sys, bridge: string, active: Active, desired: Active, order: seq<string>, h: string, names: set<Names>)
    requires Tracks(active, names) && h in active && h !in desired
    ensures var t := RemoveStale(s, bridge, active, desired, order);
      && Follows(s, t)
      && (h in order ==> HasPart(s.world, Since(s, t), RemovalOf(NamesOf(active[h]), bridge)))
    decreases order
  {
    if order != [] {
      var n := |order| - 1;
      var k := order[n];
      var m := RemoveStale(s, bridge, active, desired, order[..n]);
      assert order == order[..n] + [k];
      RemoveStaleTries(s, bridge, active, desired, order[..n], h, names);
      if k in active && k !in desired {
        RemoveOneTries(m, bridge, active[k]);
        StretchesHave(s, m, RemoveEndpoint(m, bridge, k, active[k]), RemovalOf(NamesOf(active[h]), bridge));
      }
    }
  }

  /** A sync that returns nil, or a cleanup, under any faults: of every endpoint that was tracked and no longer is, the
      port, the pair and the namespace have each been tried. */
  lemma StaleAreTried(g: Agent, bridge: string, op: Op, h: string, names: set<Names>)
    requires Tracks(g.active, names) && OpLists(op, names)
    requires (op.Sync? && Call(g, bridge, op).ok) || op.Cleanup?
    requires Enumerates(op.order, g.active.Keys)
    requires h in g.active && h !in After(g, bridge, op).active
    ensures HasPart(g.world, Call(g, bridge, op).sys.log, RemovalOf(NamesOf(g.active[h]), bridge))
  {
    var s := Start(g, op);
    if op.Sync? {
      var e := EnsureAll(s, bridge, op.eps, map[]);
      EnsureAllActs(s, bridge, op.eps, map[], names, names);
      RemoveStaleTries(e.sys, bridge, g.active, e.desired, op.order, h, names);
      StretchesHave(s, e.sys, RemoveStale(e.sys, bridge, g.active, e.desired, op.order),
        RemovalOf(NamesOf(g.active[h]), bridge));
    } else {
      RemoveStaleTries(s, bridge, g.active, map[], op.order, h, names);
    }
    SinceTheStart(s, Call(g, bridge, op).sys);
  }

  lemma SinceTheStart(s: Sys, t: Sys)
    requires s.log == []
    ensures Since(s, t) == t.log
  {
  }

  // --- what comes of it when only the port cannot be deleted

  /** Every command but those of ports went as the world said: it took effect and was answered so exactly if it was
      acceptable. */
  ghost predicate OnlyPortsFail(w: World, es: seq<Event>)
    decreases es
  {
    es == [] || (
      && (es[0].cmd.DelPort? || (es[0].took == Succeeded(es[0]) == Accepts(w, es[0].cmd)))
      && OnlyPortsFail(Play(w, es[0]), es[1..]))
  }

  ghost predicate NoPairNoNamespace(w: World, x: Names) {
    x.ns !in w.netns && RootKey(x) !in w.links && InnerKey(x) !in w.links && PeerKey(x) !in w.links
  }

  lemma {:induction false} OnlyPortsFailSplits(w: World, xs: seq<Event>, ys: seq<Event>)
    requires OnlyPortsFail(w, xs + ys)
    ensures OnlyPortsFail(w, xs) && OnlyPortsFail(Replay(w, xs), ys)
    decreases xs
  {
    if xs == [] {
      assert xs + ys == ys;
    } else {
      assert (xs + ys)[1..] == xs[1..] + ys;
      OnlyPortsFailSplits(Play(w, xs[0]), xs[1..], ys);
    }
  }

  lemma HonestStep(w: World, es: seq<Event>)
    requires OnlyPortsFail(w, es) && es != [] && !es[0].cmd.DelPort?
    ensures var v := if Accepts(w, es[0].cmd) then Effect(w, es[0].cmd) else w;
      Play(w, es[0]) == v && Replay(w, es) == Replay(v, es[1..]) && OnlyPortsFail(v, es[1..])
    ensures Succeeded(es[0]) <==> Accepts(w, es[0].cmd)
  {
  }

  lemma PairGoes(w: World, es: seq<Event>, x: Names, bridge: string)
    requires Sound(x) && WellFormed(w) && Placed(w, x, bridge) && PairTried(es, x) && OnlyPortsFail(w, es)
    ensures var v := Replay(w, es);
      && v.netns == w.netns && RootKey(x) !in v.links && InnerKey(x) !in v.links && PeerKey(x) !in v.links
  {
    HonestStep(w, es);
    if Succeeded(es[0]) {
      HonestStep(w, es[1..]);
      assert es[1..][1..] == [];
      PairDeleted(w, x, bridge);
    } else {
      HonestStep(w, es[1..]);
      assert es[1..][1..] == [];
    }
  }

  lemma PairDeleted(w: World, x: Names, bridge: string)
    requires Sound(x) && Placed(w, x, bridge) && PeerKey(x) in w.links
    ensures Accepts(w, LinkDel(PeerKey(x)))
    ensures var v := Effect(w, LinkDel(PeerKey(x)));
      && v.netns == w.netns && RootKey(x) !in v.links && InnerKey(x) !in v.links && PeerKey(x) !in v.links
  {
  }

  lemma NamespaceGoes(w: World, es: seq<Event>, x: Names)
    requires NamespaceTried(w, es, x) && OnlyPortsFail(w, es)
    ensures var v := Replay(w, es); x.ns !in v.netns && v.links.Keys <= w.links.Keys
  {
    HonestStep(w, es);
    if |es| == 2 {
      HonestStep(w, es[1..]);
      assert es[1..][1..] == [];
    } else {
      assert es[1..] == [];
    }
  }

  lemma PortGoesOrStays(w: World, e: Event, x: Names, bridge: string)
    requires Sound(x) && WellFormed(w) && Placed(w, x, bridge) && e.cmd == DelPort(bridge, x.peer)
    ensures var v := Play(w, e); WellFormed(v) && Placed(v, x, bridge) && v.netns == w.netns && v.links == w.links
  {
    ApplyKeepsWellFormed(w, e.cmd);
    CommandKeepsPlaced(w, e.cmd, x, x, bridge);
  }

  lemma PartsGo(w: World, e: Event, pair: seq<Event>, rest: seq<Event>, x: Names, bridge: string)
    requires Sound(x) && WellFormed(w) && Placed(w, x, bridge) && e.cmd == DelPort(bridge, x.peer)
    requires OnlyPortsFail(Play(w, e), pair + rest)
    requires PairTried(pair, x) && NamespaceTried(Replay(Play(w, e), pair), rest, x)
    ensures NoPairNoNamespace(Replay(Replay(Play(w, e), pair), rest), x)
  {
    PortGoesOrStays(w, e, x, bridge);
    OnlyPortsFailSplits(Play(w, e), pair, rest);
    PairGoes(Play(w, e), pair, x, bridge);
    NamespaceGoes(Replay(Play(w, e), pair), rest, x);
  }

  lemma ReplayParts(w: World, e: Event, pair: seq<Event>, rest: seq<Event>)
    ensures Replay(w, [e] + pair) == Replay(Play(w, e), pair)
    ensures Replay(w, [e] + (pair + rest)) == Replay(Replay(Play(w, e), pair), rest)
  {
    assert ([e] + pair)[1..] == pair && ([e] + (pair + rest))[1..] == pair + rest;
    ReplayConcat(Play(w, e), pair, rest);
  }

  lemma TriedGoes(w: World, es: seq<Event>, x: Names, bridge: string)
    requires Sound(x) && WellFormed(w) && Placed(w, x, bridge) && Tried(w, es, x, bridge) && OnlyPortsFail(w, es)
    ensures NoPairNoNamespace(Replay(w, es), x)
  {
    var n := PairEnd(es);
    var e, pair, rest := es[0], es[1..n], es[n..];
    assert es == [e] + (pair + rest) && es[..n] == [e] + pair && es[1..] == pair + rest;
    ReplayParts(w, e, pair, rest);
    PartsGo(w, e, pair, rest, x, bridge);
  }

  /** Nobody brings back what is gone. */
  lemma {:induction false} GoneStays(w: World, es: seq<Event>, x: Names, names: set<Names>, bridge: string)
    requires Compatible(names) && x in names && Inv(w, names, bridge) && NoPairNoNamespace(w, x)
    requires forall e :: e in es ==> SparesOrDeletes(e.cmd, x, names, bridge)
    ensures NoPairNoNamespace(Replay(w, es), x)
    decreases es
  {
    if es != [] {
      var e := es[0];
      if Deletes(e.cmd) && Owned(e.cmd, x, bridge) {
        OneCommandKeeps(w, e, x, names, bridge);
        DeletionKeepsGone(w, e, x);
      } else {
        var a :| a in names - {x} && Owned(e.cmd, a, bridge);
        OneCommandKeeps(w, e, a, names, bridge);
        CommandKeepsOthers(w, e.cmd, a, x, bridge);
        assert ViewOf(Play(w, e), x) == ViewOf(w, x);
      }
      GoneStays(Play(w, e), es[1..], x, names, bridge);
    }
  }

  lemma DeletionKeepsGone(w: World, e: Event, x: Names)
    requires Deletes(e.cmd) && NoPairNoNamespace(w, x)
    ensures NoPairNoNamespace(Play(w, e), x)
  {
  }

  lemma PartGoes(w: World, es: seq<Event>, x: Names, names: set<Names>, bridge: string)
    requires Compatible(names) && x in names && Inv(w, names, bridge) && OnlyPortsFail(w, es)
    requires HasPart(w, es, RemovalOf(x, bridge)) && forall e :: e in es ==> SparesOrDeletes(e.cmd, x, names, bridge)
    ensures NoPairNoNamespace(Replay(w, es), x)
  {
    var i, j :| PartAt(w, es, i, j, RemovalOf(x, bridge));
    assert es == es[..i] + (es[i..j] + es[j..]);
    StretchesGo(w, es, es[..i], es[i..j], es[j..], x, names, bridge);
  }

  lemma StretchesGo(
    w: World, es: seq<Event>, pre: seq<Event>, part: seq<Event>, post: seq<Event>, x: Names, names: set<Names>,
    bridge: string)
    requires es == pre + (part + post)
    requires Compatible(names) && x in names && Inv(w, names, bridge) && OnlyPortsFail(w, es)
    requires forall e :: e in es ==> SparesOrDeletes(e.cmd, x, names, bridge)
    requires Tried(Replay(w, pre), part, x, bridge)
    ensures NoPairNoNamespace(Replay(w, es), x)
  {
    OnlyPortsFailSplits(w, pre, part + post);
    OnlyPortsFailSplits(Replay(w, pre), part, post);
    SparedIsOwned(pre, x, names, bridge);
    SparedIsOwned(part, x, names, bridge);
    OwnedCommandsKeep(w, pre, names, names, bridge);
    OwnedCommandsKeep(Replay(w, pre), part, names, names, bridge);
    TriedGoes(Replay(w, pre), part, x, bridge);
    GoneStays(Replay(Replay(w, pre), part), post, x, names, bridge);
    ReplayConcat(w, pre, part + post);
    ReplayConcat(Replay(w, pre), part, post);
  }

  lemma SparedIsOwned(es: seq<Event>, x: Names, names: set<Names>, bridge: string)
    requires x in names && forall e :: e in es ==> SparesOrDeletes(e.cmd, x, names, bridge)
    ensures AllOwned(es, names, bridge)
  {
    forall e | e in es
      ensures OwnedBySome(e.cmd, names, bridge)
    {
      if Deletes(e.cmd) && Owned(e.cmd, x, bridge) {
      } else {
        var a :| a in names - {x} && Owned(e.cmd, a, bridge);
      }
    }
  }

  /** If only deletions of ports fail, no stale endpoint keeps its pair or its namespace. */
  lemma FailingPortsKeepNothingElse(g: Agent, bridge: string, op: Op, h: string, names: set<Names>)
    requires Compatible(names) && AgentInv(g, names, bridge) && OpLists(op, names)
    requires (op.Sync? && Call(g, bridge, op).ok) || op.Cleanup?
    requires Enumerates(op.order, g.active.Keys) && OnlyPortsFail(g.world, Call(g, bridge, op).sys.log)
    requires h in g.active && h !in After(g, bridge, op).active
    ensures NoPairNoNamespace(After(g, bridge, op).world, NamesOf(g.active[h]))
  {
    var x, log := NamesOf(g.active[h]), Call(g, bridge, op).sys.log;
    StaleAreTried(g, bridge, op, h, names);
    StaleIsUnlisted(g, bridge, op, h, names);
    CallSparesOrDeletes(g, bridge, op, x, names);
    PartGoes(g.world, log, x, names, bridge);
    CallActs(g, bridge, op, names, names);
  }

  lemma StaleIsUnlisted(g: Agent, bridge: string, op: Op, h: string, names: set<Names>)
    requires Tracks(g.active, names) && ((op.Sync? && Call(g, bridge, op).ok) || op.Cleanup?)
    requires h in g.active && h !in After(g, bridge, op).active
    ensures NamesOf(g.active[h]) !in Listed(op)
  {
    if op.Sync? {
      EnsuredAreKeyed(Start(g, op), bridge, op.eps, map[]);
      ListedAreKeyed(op.eps, map[]);
    }
  }
}
