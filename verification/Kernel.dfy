/** The two stores outside the agent that its commands change: the kernel's namespaces and links,
    and the Open vSwitch database. */
module Kernel {
  import opened Api
  import opened Naming

  /** A link is known by its namespace and its name; the root namespace is "". */
  datatype Key = Key(ns: string, name: string)

  /** mac is None while it is the one that the kernel chose; peer is the other end of a veth pair. */
  datatype Link = Link(mac: Option<string>, up: bool, addrs: set<string>, peer: Option<Key>)

  datatype OvsPort = OvsPort(bridge: string, ifaceID: Option<string>)

  /** netns maps a namespace to whether its loopback interface is up. */
  datatype World = World(
    netns: map<string, bool>, links: map<Key, Link>, bridges: set<string>, ports: map<string, OvsPort>)

  datatype Cmd =
    | NetnsList
    | NetnsAdd(ns: string)
    | LoopbackUp(ns: string)
    | NetnsDel(ns: string)
    | LinkShow(key: Key)
    | LinkAdd(name: string, peerName: string)
    | LinkMove(name: string, ns: string)
    | SetMac(key: Key, mac: string)
    | SetUp(key: Key)
    | AddrReplace(key: Key, addr: string)
    | LinkDel(key: Key)
    | AddPort(bridge: string, port: string)
    | SetIfaceID(port: string, id: string)
    | DelPort(bridge: string, port: string)

  /** What the text of an error tells the agent. */
  datatype ErrText = NoSuchDevice | FileExists | OtherText

  predicate Accepts(w: World, c: Cmd) {
    match c
    case NetnsList => true
    case NetnsAdd(n) => n != "" && n !in w.netns
    case LoopbackUp(n) => n in w.netns
    case NetnsDel(n) => n in w.netns
    case LinkShow(k) => k in w.links
    case LinkAdd(h, p) =>
      && Key("", h) !in w.links && Key("", p) !in w.links
      && h != p && FitsKernel(h) && FitsKernel(p)
    case LinkMove(h, n) => Key("", h) in w.links && n in w.netns && Key(n, h) !in w.links
    case SetMac(k, _) => k in w.links
    case SetUp(k) => k in w.links
    case AddrReplace(k, _) => k in w.links
    case LinkDel(k) => k in w.links
    case AddPort(b, p) => b in w.bridges && (p in w.ports ==> w.ports[p].bridge == b)
    case SetIfaceID(p, _) => p in w.ports
    case DelPort(b, p) => b in w.bridges && (p in w.ports ==> w.ports[p].bridge == b)
  }

  function Refusal(w: World, c: Cmd): ErrText {
    match c
    case LinkShow(k) => if k.ns == "" || k.ns in w.netns then NoSuchDevice else OtherText
    case NetnsAdd(n) => FileExists
    case LinkAdd(_, _) => FileExists
    case _ => OtherText
  }

  /** A link or its peer lies in namespace n, so that it goes when n goes. */
  predicate DiesWith(w: World, k: Key, n: string)
    requires k in w.links
  {
    k.ns == n || (w.links[k].peer.Some? && w.links[k].peer.value.ns == n)
  }

  function Moved(links: map<Key, Link>, from: Key, to: Key): map<Key, Link>
    requires from in links
  {
    var l := links[from];
    var rest := (links - {from})[to := l.(up := false, addrs := {})];
    if l.peer.Some? && l.peer.value in rest
    then rest[l.peer.value := rest[l.peer.value].(peer := Some(to))]
    else rest
  }

  function Deleted(links: map<Key, Link>, k: Key): map<Key, Link>
    requires k in links
  {
    links - (if links[k].peer.Some? then {k, links[k].peer.value} else {k})
  }

  function Effect(w: World, c: Cmd): World
    requires Accepts(w, c)
  {
    match c
    case NetnsList => w
    case LinkShow(_) => w
    case NetnsAdd(n) => w.(netns := w.netns[n := false])
    case LoopbackUp(n) => w.(netns := w.netns[n := true])
    case NetnsDel(n) =>
      w.(netns := w.netns - {n}, links := map k | k in w.links && !DiesWith(w, k, n) :: w.links[k])
    case LinkAdd(h, p) =>
      w.(links := w.links[Key("", h) := Link(None, false, {}, Some(Key("", p)))]
                         [Key("", p) := Link(None, false, {}, Some(Key("", h)))])
    case LinkMove(h, n) => w.(links := Moved(w.links, Key("", h), Key(n, h)))
    case SetMac(k, m) => w.(links := w.links[k := w.links[k].(mac := Some(m))])
    case SetUp(k) => w.(links := w.links[k := w.links[k].(up := true)])
    case AddrReplace(k, a) => w.(links := w.links[k := w.links[k].(addrs := w.links[k].addrs + {a})])
    case LinkDel(k) => w.(links := Deleted(w.links, k))
    case AddPort(b, p) => if p in w.ports then w else w.(ports := w.ports[p := OvsPort(b, None)])
    case SetIfaceID(p, id) => w.(ports := w.ports[p := w.ports[p].(ifaceID := Some(id))])
    case DelPort(_, p) => w.(ports := w.ports - {p})
  }

  function Apply(w: World, c: Cmd): World {
    if Accepts(w, c) then Effect(w, c) else w
  }

  predicate PeerSymmetric(links: map<Key, Link>, k: Key)
    requires k in links
  {
    links[k].peer.Some? ==>
      var p := links[k].peer.value;
      p != k && p in links && links[p].peer == Some(k)
  }

  /** The kernel's own consistency: links lie in namespaces that exist, and the ends of a pair know each other. */
  ghost predicate WellFormed(w: World) {
    && "" !in w.netns
    && (forall k :: k in w.links ==> (k.ns == "" || k.ns in w.netns) && PeerSymmetric(w.links, k))
  }

  lemma MoveKeepsWellFormed(w: World, h: string, n: string)
    requires WellFormed(w) && Accepts(w, LinkMove(h, n))
    ensures WellFormed(Effect(w, LinkMove(h, n)))
  {
    var v, from, to := Effect(w, LinkMove(h, n)), Key("", h), Key(n, h);
    var l := w.links[from];
    assert PeerSymmetric(w.links, from) && n != "";
    forall k | k in v.links
      ensures (k.ns == "" || k.ns in v.netns) && PeerSymmetric(v.links, k)
    {
      if k != to {
        assert PeerSymmetric(w.links, k);
      }
    }
  }

  lemma DeleteKeepsWellFormed(w: World, d: Key)
    requires WellFormed(w) && d in w.links
    ensures WellFormed(Effect(w, LinkDel(d)))
  {
    var v := Effect(w, LinkDel(d));
    assert PeerSymmetric(w.links, d);
    forall k | k in v.links
      ensures (k.ns == "" || k.ns in v.netns) && PeerSymmetric(v.links, k)
    {
      assert PeerSymmetric(w.links, k);
    }
  }

  lemma NetnsDelKeepsWellFormed(w: World, n: string)
    requires WellFormed(w) && n in w.netns
    ensures WellFormed(Effect(w, NetnsDel(n)))
  {
    var v := Effect(w, NetnsDel(n));
    forall k | k in v.links
      ensures (k.ns == "" || k.ns in v.netns) && PeerSymmetric(v.links, k)
    {
      assert PeerSymmetric(w.links, k);
      if w.links[k].peer.Some? {
        assert PeerSymmetric(w.links, w.links[k].peer.value);
      }
    }
  }

  lemma ApplyKeepsWellFormed(w: World, c: Cmd)
    requires WellFormed(w)
    ensures WellFormed(Apply(w, c))
  {
    if Accepts(w, c) {
      match c
      case LinkMove(h, n) => MoveKeepsWellFormed(w, h, n);
      case LinkDel(d) => DeleteKeepsWellFormed(w, d);
      case NetnsDel(n) => NetnsDelKeepsWellFormed(w, n);
      case _ => OtherKeepsWellFormed(w, c);
    }
  }

  lemma OtherKeepsWellFormed(w: World, c: Cmd)
    requires WellFormed(w) && Accepts(w, c) && !c.LinkMove? && !c.LinkDel? && !c.NetnsDel?
    ensures WellFormed(Effect(w, c))
  {
    var v := Effect(w, c);
    forall k | k in v.links
      ensures (k.ns == "" || k.ns in v.netns) && PeerSymmetric(v.links, k)
    {
      assert k in w.links ==> PeerSymmetric(w.links, k);
    }
  }
}
