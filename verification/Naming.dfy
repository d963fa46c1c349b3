/** How interface, namespace and port names are derived from a network id. Strings are byte strings. */
module Naming {
  import opened Api

  /** The first eight bytes of a network id, or all of it. */
  function Short(networkID: string): string {
    if |networkID| > 8 then networkID[..8] else networkID
  }

  function HostIfName(short: string): string { "net" + short }

  function PeerIfName(hostIf: string): string { hostIf + "-ovs" }

  function NetNSName(short: string): string { "dcgm-" + short }

  function PortName(computeHost: string, short: string): string { "dcgm-" + computeHost + "-" + short }

  /** The namespace an endpoint or target is put in: the one given, else the one derived from its network. */
  function DerivedNetNS(netNS: string, networkID: string): string {
    if netNS == "" && networkID != "" then NetNSName(Short(networkID)) else netNS
  }

  function EffectiveNetNS(ep: HostNetworkEndpoint): string {
    DerivedNetNS(ep.netNS, ep.networkID)
  }

  /** The names as they are written, for a network id and a compute host. */
  lemma NamesSpelledOut(id: string, computeHost: string)
    ensures var short := if |id| >= 8 then id[..8] else id;
      && HostIfName(Short(id)) == "net" + short && PeerIfName(HostIfName(Short(id))) == "net" + short + "-ovs"
      && NetNSName(Short(id)) == "dcgm-" + short
      && PortName(computeHost, Short(id)) == "dcgm-" + computeHost + "-" + short
  {
  }

  /** The namespace given, or the one named by the network, or none. */
  predicate IsNamespaceFor(ns: string, given: string, networkID: string) {
    if given != "" then ns == given
    else if networkID == "" then ns == ""
    else ns == "dcgm-" + if |networkID| >= 8 then networkID[..8] else networkID
  }

  lemma DerivedIsNamespaceFor(given: string, networkID: string)
    ensures IsNamespaceFor(DerivedNetNS(given, networkID), given, networkID)
  {
    NamesSpelledOut(networkID, "");
  }

  /** The three names one endpoint owns on a compute host. */
  datatype Names = Names(host: string, peer: string, ns: string)

  function NamesFor(short: string): Names {
    Names(HostIfName(short), PeerIfName(HostIfName(short)), NetNSName(short))
  }

  function NamesOf(ep: HostNetworkEndpoint): Names {
    Names(ep.vethName, PeerIfName(ep.vethName), EffectiveNetNS(ep))
  }

  /** The longest interface name Linux takes: IFNAMSIZ less the terminating byte. */
  const MAX_IF_NAME := 15

  predicate FitsKernel(name: string) { 0 < |name| <= MAX_IF_NAME }

  predicate Sound(a: Names) {
    a.host != a.peer && a.ns != "" && FitsKernel(a.host) && FitsKernel(a.peer)
  }

  predicate Apart(a: Names, b: Names) {
    && a.host != b.host && a.peer != b.peer && a.host != b.peer && a.peer != b.host && a.ns != b.ns
  }

  /** Interface and namespace determine each other across the whole universe of names. */
  ghost predicate Compatible(names: set<Names>) {
    && (forall a :: a in names ==> Sound(a))
    && (forall a, b :: a in names && b in names ==> a == b || Apart(a, b))
  }

  /** Interface, peer, namespace and port names, and the absence of any host/peer clash. */
  lemma NamesAreInjective(s: string, t: string, h: string, g: string)
    requires |s| == 8 && |t| == 8
    ensures Sound(NamesFor(s)) && |NamesFor(s).peer| == MAX_IF_NAME && |NamesFor(s).host| < MAX_IF_NAME
    ensures s != t ==> Apart(NamesFor(s), NamesFor(t))
    ensures NamesFor(s).host != NamesFor(t).peer
    ensures PortName(h, s) == PortName(g, t) ==> h == g && s == t
  {
    var a, b := NamesFor(s), NamesFor(t);
    assert a.host[3..] == s && b.host[3..] == t;
    assert a.peer[..11] == a.host && b.peer[..11] == b.host;
    assert a.ns[5..] == s && b.ns[5..] == t;
    if PortName(h, s) == PortName(g, t) {
      var n := PortName(h, s);
      assert |n| == 5 + |h| + 1 + 8 == 5 + |g| + 1 + 8;
      assert n[5..5 + |h|] == h && n[5..5 + |g|] == g;
      assert n[|n| - 8..] == s && n[|n| - 8..] == t;
    }
  }

  ghost function UniverseOf(shorts: set<string>): set<Names> {
    set s | s in shorts :: NamesFor(s)
  }

  /** When two short ids of any lengths clash: exactly if they are equal, or one is the other with the peer's suffix. */
  lemma ApartIff(s: string, t: string)
    ensures Apart(NamesFor(s), NamesFor(t)) <==> s != t && s != t + "-ovs" && t != s + "-ovs"
  {
    var a, b := NamesFor(s), NamesFor(t);
    SamePrefix("net", s, t);
    SamePrefix("dcgm-", s, t);
    SameSuffix(a.host, b.host, "-ovs");
    assert a.peer == "net" + (s + "-ovs") && b.peer == "net" + (t + "-ovs");
    SamePrefix("net", s, t + "-ovs");
    SamePrefix("net", t, s + "-ovs");
  }

  lemma SamePrefix(p: string, s: string, t: string)
    ensures p + s == p + t <==> s == t
  {
    assert (p + s)[|p|..] == s && (p + t)[|p|..] == t;
  }

  lemma SameSuffix(s: string, t: string, p: string)
    ensures s + p == t + p <==> s == t
  {
    assert |s| == |t| ==> (s + p)[..|s|] == s && (t + p)[..|t|] == t;
  }

  /** And the names fit the kernel exactly for the short ids there are: those of at most eight bytes. */
  lemma SoundIff(s: string)
    ensures Sound(NamesFor(s)) <==> |s| <= 8
  {
  }

  /** No short id is another with the peer's suffix. */
  ghost predicate ShortsAgree(shorts: set<string>) {
    forall s, t :: s in shorts && t in shorts ==> |s| <= 8 && s != t + "-ovs"
  }

  /** The exact condition under which the Control Service's naming rule gives a compatible universe. */
  lemma ControlNamesAreCompatibleIff(shorts: set<string>)
    ensures Compatible(UniverseOf(shorts)) <==> ShortsAgree(shorts)
  {
    var names := UniverseOf(shorts);
    if ShortsAgree(shorts) {
      forall a, b | a in names && b in names
        ensures Sound(a) && (a == b || Apart(a, b))
      {
        var s :| s in shorts && a == NamesFor(s);
        var t :| t in shorts && b == NamesFor(t);
        SoundIff(s);
        ApartIff(s, t);
      }
    }
    if Compatible(names) {
      forall s, t | s in shorts && t in shorts
        ensures |s| <= 8 && s != t + "-ovs"
      {
        assert NamesFor(s) in names && NamesFor(t) in names;
        SoundIff(s);
        ApartIff(s, t);
        SamePrefix("net", s, t);
      }
    }
  }

  /** In particular for short ids of eight bytes, which network ids of at least eight bytes give. */
  lemma ControlNamesAreCompatible(shorts: set<string>)
    requires forall s :: s in shorts ==> |s| == 8
    ensures Compatible(UniverseOf(shorts))
  {
    ControlNamesAreCompatibleIff(shorts);
  }
}
