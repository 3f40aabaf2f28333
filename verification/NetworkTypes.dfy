/**
 * What the network manager keeps in memory
 * (src/cm/networkmanager/itf/storage.hpp and networkmanager.hpp).
 */
module NetworkTypes {
  import opened Cidr
  import opened NetPool
  import opened IpSubnets

  type NodeID = string

  datatype InstanceIdent = InstanceIdent(
    itemID: string, subjectID: string, instance: nat, itemType: string, preinstalled: bool)

  datatype ExposedPort = ExposedPort(protocol: string, port: string)

  datatype Instance = Instance(
    networkID: NetworkID, nodeID: NodeID, ident: InstanceIdent, ip: Addr,
    exposedPorts: seq<ExposedPort>, dnsServers: seq<string>)

  datatype Host = Host(nodeID: NodeID, ip: Addr)

  datatype HostInstances = HostInstances(info: Host, instances: map<InstanceIdent, Instance>)

  datatype Network = Network(networkID: NetworkID, subnet: Subnet, vlanID: nat)

  datatype NetworkState = NetworkState(network: Network, hosts: map<NodeID, HostInstances>)

  /** An allowed connection as parsed from item/port/protocol. */
  datatype Connection = Connection(itemID: string, port: string, protocol: string)

  datatype PendingConnection = PendingConnection(
    requester: InstanceIdent, nodeID: NodeID, networkID: NetworkID, requesterIP: Addr,
    requesterSubnet: Subnet, target: string, port: string, protocol: string)

  datatype FirewallRule = FirewallRule(dstIP: Addr, dstPort: string, proto: string, srcIP: Addr)

  /** What a node reports about one of its instances. */
  datatype InstanceReport = InstanceReport(ident: InstanceIdent, rules: seq<FirewallRule>)

  /** The rules pushed to a node for one instance. */
  datatype FirewallUpdate = FirewallUpdate(nodeID: NodeID, rules: seq<FirewallRule>)

  type Nets = map<NetworkID, NetworkState>

  type HostNames = map<Addr, seq<string>>

  // Places in the nested maps

  datatype HostKey = HostKey(networkID: NetworkID, nodeID: NodeID)

  datatype Slot = Slot(networkID: NetworkID, nodeID: NodeID, ident: InstanceIdent)

  predicate HasHost(nets: Nets, h: HostKey) {
    h.networkID in nets && h.nodeID in nets[h.networkID].hosts
  }

  function HostAt(nets: Nets, h: HostKey): Host
    requires HasHost(nets, h)
  {
    nets[h.networkID].hosts[h.nodeID].info
  }

  predicate Held(nets: Nets, k: Slot) {
    HasHost(nets, HostKey(k.networkID, k.nodeID)) && k.ident in nets[k.networkID].hosts[k.nodeID].instances
  }

  function At(nets: Nets, k: Slot): Instance
    requires Held(nets, k)
  {
    nets[k.networkID].hosts[k.nodeID].instances[k.ident]
  }

  function PutHost(nets: Nets, networkID: NetworkID, host: Host): Nets
    requires networkID in nets
  {
    var ns := nets[networkID];
    nets[networkID := ns.(hosts := ns.hosts[host.nodeID := HostInstances(host, map[])])]
  }

  function DropHost(nets: Nets, h: HostKey): Nets
    requires HasHost(nets, h)
  {
    var ns := nets[h.networkID];
    nets[h.networkID := ns.(hosts := ns.hosts - {h.nodeID})]
  }

  function WithInstances(nets: Nets, h: HostKey, instances: map<InstanceIdent, Instance>): Nets
    requires HasHost(nets, h)
  {
    var ns := nets[h.networkID];
    nets[h.networkID := ns.(hosts := ns.hosts[h.nodeID := ns.hosts[h.nodeID].(instances := instances)])]
  }

  function PutInstance(nets: Nets, k: Slot, x: Instance): Nets
    requires HasHost(nets, HostKey(k.networkID, k.nodeID))
  {
    WithInstances(nets, HostKey(k.networkID, k.nodeID), nets[k.networkID].hosts[k.nodeID].instances[k.ident := x])
  }

  function DropInstance(nets: Nets, k: Slot): Nets
    requires HasHost(nets, HostKey(k.networkID, k.nodeID))
  {
    WithInstances(nets, HostKey(k.networkID, k.nodeID), nets[k.networkID].hosts[k.nodeID].instances - {k.ident})
  }

  lemma DropAfterPut(nets: Nets, k: Slot, x: Instance)
    requires HasHost(nets, HostKey(k.networkID, k.nodeID)) && !Held(nets, k)
    ensures DropInstance(PutInstance(nets, k, x), k) == nets
  {
    var instances := nets[k.networkID].hosts[k.nodeID].instances;
    assert instances[k.ident := x] - {k.ident} == instances;
    var back := DropInstance(PutInstance(nets, k, x), k);
    assert back[k.networkID].hosts == nets[k.networkID].hosts;
  }

  // The order in which the code walks the unordered maps

  /** Every held instance once, in an arbitrary order that is fixed while the maps do not change. */
  type Order = Nets -> seq<Slot>
}
