/** The managers of pkg/network, command by command, against NetworkSpec. */
module Network {
  import opened Api
  import opened Naming
  import opened Kernel
  import opened Command
  import opened Order
  import Spec = NetworkSpec
  import R = Runs
  import L = LogPrefix

  class NetNSManager {
    const runner: CommandRunner

    constructor (runner: CommandRunner)
      ensures this.runner == runner
    {
      this.runner := runner;
    }

    method NetNSExists(name: string) returns (exists_: bool, ok: bool)
      modifies runner
      ensures Found(runner.sys, exists_, ok) == Spec.NetNSExists(old(runner.sys), name)
    {
      var reply, lines := runner.RunNetnsList();
      if reply.Err? {
        return false, false;
      }
      for i := 0 to |lines|
        invariant runner.sys == Exec(old(runner.sys), NetnsList).sys
        invariant forall j :: 0 <= j < i ==> !(0 < |lines[j]| && lines[j][0] == name)
      {
        if 0 < |lines[i]| && lines[i][0] == name {
          return true, true;
        }
      }
      return false, true;
    }

    method EnsureNetNS(name: string) returns (ok: bool)
      modifies runner
      ensures Out(runner.sys, ok) == Spec.EnsureNetNS(old(runner.sys), name)
    {
      var found, checked := NetNSExists(name);
      if !checked {
        return false;
      }
      if !found {
        var added := runner.Run(NetnsAdd(name));
        if added.Err? && !added.text.FileExists? {
          return false;
        }
      }
      var lo := runner.Run(LoopbackUp(name));
      return lo.Ok?;
    }

    method DeleteNetNS(name: string) returns (ok: bool)
      modifies runner
      ensures Out(runner.sys, ok) == Spec.DeleteNetNS(old(runner.sys), name)
    {
      var found, checked := NetNSExists(name);
      if !checked {
        return false;
      }
      if !found {
        return true;
      }
      var deleted := runner.Run(NetnsDel(name));
      return deleted.Ok?;
    }
  }

  class VethManager {
    const runner: CommandRunner

    constructor (runner: CommandRunner)
      ensures this.runner == runner
    {
      this.runner := runner;
    }

    method LinkExistsInNetNS(ifName: string, netns: string) returns (exists_: bool, ok: bool)
      modifies runner
      ensures Found(runner.sys, exists_, ok) == Spec.LinkExists(old(runner.sys), Key(netns, ifName))
    {
      var reply := runner.Run(LinkShow(Key(netns, ifName)));
      if reply.Err? {
        if reply.text.NoSuchDevice? {
          return false, true;
        }
        return false, false;
      }
      return true, true;
    }

    method EnsureVethPair(hostIf: string, ovsIf: string, mac: string, ip: string, netns: string) returns (ok: bool)
      modifies runner
      ensures Out(runner.sys, ok) == Spec.EnsureVethPair(old(runner.sys), Names(hostIf, ovsIf, netns), mac, ip)
    {
      ghost var a := Names(hostIf, ovsIf, netns);
      if netns == "" {
        var found, checked := LinkExistsInNetNS(hostIf, "");
        if !checked {
          return false;
        }
        if !found {
          var added := runner.Run(LinkAdd(hostIf, ovsIf));
          if added.Err? {
            return false;
          }
        }
        ghost var s := runner.sys;
        Spec.ScriptOfRoot(s, a, mac, ip);
        if mac != "" {
          var r := runner.Run(SetMac(Key("", hostIf), mac));
          if r.Err? { return false; }
        }
        var r := runner.Run(SetUp(Key("", hostIf)));
        if r.Err? { return false; }
        r := runner.Run(SetUp(Key("", ovsIf)));
        if r.Err? { return false; }
        if ip != "" {
          r := runner.Run(AddrReplace(Key("", hostIf), ip));
          if r.Err? { return false; }
        }
        return true;
      }
      var found, checked := LinkExistsInNetNS(hostIf, netns);
      if !checked {
        return false;
      }
      if !found {
        var inRoot, checkedRoot := LinkExistsInNetNS(hostIf, "");
        if !checkedRoot {
          return false;
        }
        if !inRoot {
          var added := runner.Run(LinkAdd(hostIf, ovsIf));
          if added.Err? {
            return false;
          }
        }
        var moved := runner.Run(LinkMove(hostIf, netns));
        if moved.Err? {
          return false;
        }
      }
      ghost var s := runner.sys;
      Spec.ScriptOfInner(s, a, mac, ip);
      if mac != "" {
        var r := runner.Run(SetMac(Key(netns, hostIf), mac));
        if r.Err? { return false; }
      }
      var r := runner.Run(SetUp(Key(netns, hostIf)));
      if r.Err? { return false; }
      if ip != "" {
        r := runner.Run(AddrReplace(Key(netns, hostIf), ip));
        if r.Err? { return false; }
      }
      r := runner.Run(SetUp(Key("", ovsIf)));
      return r.Ok?;
    }

    method DeleteVethPair(hostIf: string, ovsIf: string, netns: string) returns (ok: bool)
      modifies runner
      ensures Out(runner.sys, ok) == Spec.DeleteVethPair(old(runner.sys), Names(hostIf, ovsIf, netns))
    {
      if ovsIf != "" {
        var peerThere, _ := LinkExistsInNetNS(ovsIf, "");
        if peerThere {
          var r := runner.Run(LinkDel(Key("", ovsIf)));
          return r.Ok?;
        }
      }
      var hostThere, _ := LinkExistsInNetNS(hostIf, netns);
      if hostThere {
        var r := runner.Run(LinkDel(Key(netns, hostIf)));
        return r.Ok?;
      }
      return true;
    }
  }

  class OVSManager {
    const runner: CommandRunner
    const defaultBridge: string

    constructor (runner: CommandRunner, defaultBridge: string)
      ensures this.runner == runner
      ensures this.defaultBridge == if defaultBridge == "" then "br-int" else defaultBridge
    {
      this.runner := runner;
      this.defaultBridge := if defaultBridge == "" then "br-int" else defaultBridge;
    }

    function Bridge(bridge: string): string { if bridge == "" then defaultBridge else bridge }

    method EnsurePort(bridge: string, portName: string, ifaceID: string) returns (ok: bool)
      modifies runner
      ensures Out(runner.sys, ok) == Script(old(runner.sys), Spec.PortCmds(Bridge(bridge), portName, ifaceID))
    {
      Spec.ScriptOfPort(runner.sys, Bridge(bridge), portName, ifaceID);
      var r := runner.Run(AddPort(Bridge(bridge), portName));
      if r.Err? {
        return false;
      }
      if ifaceID != "" {
        r := runner.Run(SetIfaceID(portName, ifaceID));
        if r.Err? {
          return false;
        }
      }
      return true;
    }

    method DeletePort(bridge: string, portName: string) returns (ok: bool)
      modifies runner
      ensures Out(runner.sys, ok) == Do(old(runner.sys), DelPort(Bridge(bridge), portName))
    {
      var r := runner.Run(DelPort(Bridge(bridge), portName));
      return r.Ok?;
    }
  }

  class NetworkManager {
    const runner: CommandRunner
    const veth: VethManager
    const ovs: OVSManager
    const netns: NetNSManager
    const bridge: string
    var activeVeths: Spec.Active

    ghost predicate Wired() {
      veth.runner == runner && ovs.runner == runner && netns.runner == runner && bridge != ""
    }

    /** The agent of the run model that this manager and its stores are. */
    ghost function Agent(): R.Agent
      reads this, runner
    {
      R.Agent(runner.sys.world, activeVeths)
    }

    constructor (veth: VethManager, ovs: OVSManager, bridge: string)
      requires ovs.runner == veth.runner
      ensures Wired() && activeVeths == map[] && runner == veth.runner
      ensures this.bridge == if bridge == "" then "br-int" else bridge
    {
      this.runner := veth.runner;
      this.veth := veth;
      this.ovs := ovs;
      this.netns := new NetNSManager(veth.runner);
      this.bridge := if bridge == "" then "br-int" else bridge;
      this.activeVeths := map[];
    }

    /** Returns false where the source returns an error. The order in which stale endpoints went is in order.
        Whatever was called before, the call is a sync of the run model. */
    method ReconcileEndpoints(endpoints: seq<HostNetworkEndpoint>) returns (ok: bool, ghost order: seq<string>)
      requires Wired()
      modifies this, runner
      ensures Spec.Reconciled(runner.sys, activeVeths, ok)
           == Spec.Reconcile(old(runner.sys), bridge, old(activeVeths), endpoints, order)
      ensures ok ==> Enumerates(order, old(activeVeths).Keys)
      ensures var op := R.Sync(endpoints, order, old(runner.sys.faults));
        Agent() == R.After(old(Agent()), bridge, op) && ok == R.Call(old(Agent()), bridge, op).ok
    {
      forall o {
        L.ReconcileIsSync(runner.sys, bridge, activeVeths, endpoints, o);
      }
      order := [];
      var desired: Spec.Active := map[];
      ghost var start := runner.sys;
      for i := 0 to |endpoints|
        invariant activeVeths == old(activeVeths) && order == []
        invariant Spec.EnsureAll(start, bridge, endpoints, map[])
               == Spec.EnsureAll(runner.sys, bridge, endpoints[i..], desired)
      {
        var ep := endpoints[i];
        assert endpoints[i..][1..] == endpoints[i + 1..];
        if ep.vethName == "" {
          continue;
        }
        var hostIf := ep.vethName;
        var ovsIf := PeerIfName(ep.vethName);
        var ns := ep.netNS;
        if ns == "" && ep.networkID != "" {
          ns := NetNSName(Short(ep.networkID));
          ep := ep.(netNS := ns);
        }
        assert ep == Spec.Fill(endpoints[i]);
        if ns != "" {
          var made := netns.EnsureNetNS(ns);
          if !made {
            return false, order;
          }
        }
        var paired := veth.EnsureVethPair(hostIf, ovsIf, ep.mac, ep.ip, ns);
        if !paired {
          return false, order;
        }
        var attached := ovs.EnsurePort(bridge, ovsIf, ep.portID);
        if !attached {
          return false, order;
        }
        desired := desired[hostIf := ep];
      }
      order := Remove(desired);
      activeVeths := desired;
      return true, order;
    }

    method RemoveEndpoint(hostIf: string, oldEp: HostNetworkEndpoint)
      requires Wired()
      modifies runner
      ensures runner.sys == Spec.RemoveEndpoint(old(runner.sys), bridge, hostIf, oldEp)
    {
      var ovsIf := PeerIfName(oldEp.vethName);
      var _ := ovs.DeletePort(bridge, ovsIf);
      var _ := veth.DeleteVethPair(hostIf, ovsIf, oldEp.netNS);
      if oldEp.netNS != "" {
        var _ := netns.DeleteNetNS(oldEp.netNS);
      }
    }

    /** The deletion loop: every tracked endpoint that is not desired, in any order. */
    method Remove(desired: Spec.Active) returns (ghost order: seq<string>)
      requires Wired()
      modifies runner
      ensures runner.sys == Spec.RemoveStale(old(runner.sys), bridge, activeVeths, desired, order)
      ensures Enumerates(order, activeVeths.Keys)
    {
      order := [];
      var todo := activeVeths.Keys;
      while todo != {}
        invariant todo <= activeVeths.Keys
        invariant Enumerates(order, activeVeths.Keys - todo)
        invariant runner.sys == Spec.RemoveStale(old(runner.sys), bridge, activeVeths, desired, order)
        decreases todo
      {
        var hostIf :| hostIf in todo;
        EnumeratesOneMore(order, activeVeths.Keys - todo, hostIf);
        assert activeVeths.Keys - (todo - {hostIf}) == activeVeths.Keys - todo + {hostIf};
        order := order + [hostIf];
        todo := todo - {hostIf};
        if hostIf !in desired {
          RemoveEndpoint(hostIf, activeVeths[hostIf]);
        }
      }
    }

    method Cleanup() returns (ghost order: seq<string>)
      requires Wired()
      modifies this, runner
      ensures activeVeths == map[]
      ensures runner.sys == Spec.RemoveStale(old(runner.sys), bridge, old(activeVeths), map[], order)
      ensures Enumerates(order, old(activeVeths).Keys)
      ensures Agent() == R.After(old(Agent()), bridge, R.Cleanup(order, old(runner.sys.faults)))
    {
      order := Remove(map[]);
      L.RemovalIsCleanup(old(runner.sys), bridge, old(activeVeths), order);
      activeVeths := map[];
    }
  }
}
