/** The wire entities that the Control Service and the Compute Agent exchange. */
module Api {
  datatype Option<+T> = None | Some(value: T)

  function At<K, V>(m: map<K, V>, k: K): Option<V> {
    if k in m then Some(m[k]) else None
  }

  /** The host-side interface bound to one Neutron network. */
  datatype HostNetworkEndpoint = HostNetworkEndpoint(
    networkID: string, portID: string, mac: string, ip: string, vethName: string, netNS: string)

  /** A GPU virtual machine to be scraped. */
  datatype TargetVM = TargetVM(
    vmID: string, vmName: string, projectID: string, networkID: string, networkIDs: seq<string>,
    guestIP: string, port: int, netNS: string)
}
