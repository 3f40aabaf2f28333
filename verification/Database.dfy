/**
 * The network manager's tables and storage methods
 * (src/cm/database/database.cpp).
 */
module NetworkDatabase {
  import opened Seqs
  import opened IpSubnets
  import opened NetworkTypes

  /** Rows by primary key; pending connections have no key and may repeat. */
  datatype Tables = Tables(
    networks: map<NetworkID, Network>,
    hosts: map<HostKey, Host>,
    instances: map<InstanceIdent, Instance>,
    pending: seq<PendingConnection>)

  const EMPTY: Tables := Tables(map[], map[], map[], [])

  // Every statement fails when the storage itself fails (ok is false) or a key is violated.

  function InsertNetwork(t: Tables, row: Network, ok: bool): (Tables, bool) {
    if !ok || row.networkID in t.networks then (t, false)
    else (t.(networks := t.networks[row.networkID := row]), true)
  }

  function InsertHost(t: Tables, networkID: NetworkID, row: Host, ok: bool): (Tables, bool) {
    var key := HostKey(networkID, row.nodeID);
    if !ok || key in t.hosts || networkID !in t.networks then (t, false)
    else (t.(hosts := t.hosts[key := row]), true)
  }

  function InsertInstance(t: Tables, row: Instance, ok: bool): (Tables, bool) {
    if !ok || row.ident in t.instances || row.networkID !in t.networks
       || HostKey(row.networkID, row.nodeID) !in t.hosts then (t, false)
    else (t.(instances := t.instances[row.ident := row]), true)
  }

  predicate NetworkReferenced(t: Tables, networkID: NetworkID) {
    || (exists k | k in t.hosts :: k.networkID == networkID)
    || (exists i | i in t.instances :: t.instances[i].networkID == networkID)
  }

  predicate HostReferenced(t: Tables, key: HostKey) {
    exists i | i in t.instances :: HostKey(t.instances[i].networkID, t.instances[i].nodeID) == key
  }

  function DeleteNetwork(t: Tables, networkID: NetworkID, ok: bool): (Tables, bool) {
    if !ok || networkID !in t.networks || NetworkReferenced(t, networkID) then (t, false)
    else (t.(networks := t.networks - {networkID}), true)
  }

  function DeleteHost(t: Tables, key: HostKey, ok: bool): (Tables, bool) {
    if !ok || key !in t.hosts || HostReferenced(t, key) then (t, false)
    else (t.(hosts := t.hosts - {key}), true)
  }

  function DeleteInstance(t: Tables, ident: InstanceIdent, ok: bool): (Tables, bool) {
    if !ok || ident !in t.instances then (t, false)
    else (t.(instances := t.instances - {ident}), true)
  }

  /** The columns that the statement for one pending connection compares. */
  predicate SamePartialKey(p: PendingConnection, q: PendingConnection) {
    p.requester == q.requester && p.target == q.target && p.port == q.port && p.protocol == q.protocol
  }

  function OtherPartialKey(p: PendingConnection): PendingConnection -> bool {
    (q: PendingConnection) => !SamePartialKey(p, q)
  }

  function OtherRequester(ident: InstanceIdent): PendingConnection -> bool {
    (q: PendingConnection) => q.requester != ident
  }

  // SELECT ... WHERE networkID = ? and SELECT ... WHERE networkID = ? AND nodeID = ?

  function SelectHosts(t: Tables, networkID: NetworkID): map<NodeID, Host> {
    map k | k in t.hosts && k.networkID == networkID :: k.nodeID := t.hosts[k]
  }

  function SelectInstances(t: Tables, key: HostKey): map<InstanceIdent, Instance> {
    map i | i in t.instances && HostKey(t.instances[i].networkID, t.instances[i].nodeID) == key :: t.instances[i]
  }

  class Database {
    var networks: map<NetworkID, Network>
    var hosts: map<HostKey, Host>
    var instances: map<InstanceIdent, Instance>
    var pending: seq<PendingConnection>

    function Model(): Tables
      reads this
    {
      Tables(networks, hosts, instances, pending)
    }

    constructor ()
      ensures Model() == EMPTY
    {
      networks, hosts, instances, pending := map[], map[], map[], [];
    }

    method AddNetwork(network: Network, storageOk: bool) returns (ok: bool)
      modifies this`networks
      ensures (Model(), ok) == InsertNetwork(old(Model()), network, storageOk)
      ensures ok <==> storageOk && network.networkID !in old(networks)
      ensures networks == if ok then old(networks)[network.networkID := network] else old(networks)
    {
      ok := storageOk && network.networkID !in networks;
      if ok {
        networks := networks[network.networkID := network];
      }
    }

    method AddHost(networkID: NetworkID, host: Host, storageOk: bool) returns (ok: bool)
      modifies this`hosts
      ensures (Model(), ok) == InsertHost(old(Model()), networkID, host, storageOk)
      ensures ok <==> storageOk && HostKey(networkID, host.nodeID) !in old(hosts) && networkID in networks
      ensures hosts == if ok then old(hosts)[HostKey(networkID, host.nodeID) := host] else old(hosts)
    {
      var key := HostKey(networkID, host.nodeID);
      ok := storageOk && key !in hosts && networkID in networks;
      if ok {
        hosts := hosts[key := host];
      }
    }

    method AddInstance(instance: Instance, storageOk: bool) returns (ok: bool)
      modifies this`instances
      ensures (Model(), ok) == InsertInstance(old(Model()), instance, storageOk)
      ensures ok <==>
              && storageOk && instance.ident !in old(instances) && instance.networkID in networks
              && HostKey(instance.networkID, instance.nodeID) in hosts
      ensures instances == if ok then old(instances)[instance.ident := instance] else old(instances)
    {
      ok := storageOk && instance.ident !in instances && instance.networkID in networks
            && HostKey(instance.networkID, instance.nodeID) in hosts;
      if ok {
        instances := instances[instance.ident := instance];
      }
    }

    method RemoveNetwork(networkID: NetworkID, storageOk: bool) returns (ok: bool)
      modifies this`networks
      ensures (Model(), ok) == DeleteNetwork(old(Model()), networkID, storageOk)
      ensures ok <==>
              && storageOk && networkID in old(networks)
              && (forall k | k in hosts :: k.networkID != networkID)
              && (forall i | i in instances :: instances[i].networkID != networkID)
      ensures networks == if ok then old(networks) - {networkID} else old(networks)
    {
      ok := storageOk && networkID in networks && !NetworkReferenced(Model(), networkID);
      if ok {
        networks := networks - {networkID};
      }
    }

    method RemoveHost(networkID: NetworkID, nodeID: NodeID, storageOk: bool) returns (ok: bool)
      modifies this`hosts
      ensures (Model(), ok) == DeleteHost(old(Model()), HostKey(networkID, nodeID), storageOk)
      ensures ok <==>
              && storageOk && HostKey(networkID, nodeID) in old(hosts)
              && (forall i | i in instances :: instances[i].networkID != networkID || instances[i].nodeID != nodeID)
      ensures hosts == if ok then old(hosts) - {HostKey(networkID, nodeID)} else old(hosts)
    {
      var key := HostKey(networkID, nodeID);
      ok := storageOk && key in hosts && !HostReferenced(Model(), key);
      if ok {
        hosts := hosts - {key};
      }
    }

    method RemoveNetworkInstance(ident: InstanceIdent, storageOk: bool) returns (ok: bool)
      modifies this`instances
      ensures (Model(), ok) == DeleteInstance(old(Model()), ident, storageOk)
      ensures ok <==> storageOk && ident in old(instances)
      ensures instances == if ok then old(instances) - {ident} else old(instances)
    {
      ok := storageOk && ident in instances;
      if ok {
        instances := instances - {ident};
      }
    }

    method GetNetworks(storageOk: bool) returns (ok: bool, rows: map<NetworkID, Network>)
      ensures ok == storageOk && (ok ==> rows == networks)
    {
      return storageOk, networks;
    }

    method GetHosts(networkID: NetworkID, storageOk: bool) returns (ok: bool, rows: map<NodeID, Host>)
      ensures ok == storageOk && (ok ==> rows == SelectHosts(Model(), networkID))
      ensures ok ==> forall d :: d in rows <==> HostKey(networkID, d) in hosts
      ensures ok ==> forall d | d in rows :: rows[d] == hosts[HostKey(networkID, d)]
    {
      rows := SelectHosts(Model(), networkID);
      forall d
        ensures d in rows <==> HostKey(networkID, d) in hosts
      {
        assert HostKey(networkID, d) in hosts ==> HostKey(networkID, d).nodeID == d;
      }
      return storageOk, rows;
    }

    method GetInstances(key: HostKey, storageOk: bool) returns (ok: bool, rows: map<InstanceIdent, Instance>)
      ensures ok == storageOk && (ok ==> rows == SelectInstances(Model(), key))
      ensures ok ==>
                forall i ::
                  i in rows <==>
                  i in instances && instances[i].networkID == key.networkID && instances[i].nodeID == key.nodeID
      ensures ok ==> forall i | i in rows :: rows[i] == instances[i]
    {
      return storageOk, SelectInstances(Model(), key);
    }

    method GetAllPendingConnections(storageOk: bool) returns (ok: bool, rows: seq<PendingConnection>)
      ensures ok == storageOk && (ok ==> rows == pending)
    {
      return storageOk, pending;
    }

    method AddPendingConnection(connection: PendingConnection, storageOk: bool) returns (ok: bool)
      modifies this`pending
      ensures ok == storageOk
      ensures pending == if ok then old(pending) + [connection] else old(pending)
    {
      ok := storageOk;
      if ok {
        pending := pending + [connection];
      }
    }

    method RemovePendingConnection(connection: PendingConnection, storageOk: bool) returns (ok: bool)
      modifies this`pending
      ensures ok == storageOk
      ensures pending == if ok then Filter(old(pending), OtherPartialKey(connection)) else old(pending)
      ensures ok ==>
                forall p :: multiset(pending)[p] ==
                            if p.requester == connection.requester && p.target == connection.target &&
                               p.port == connection.port && p.protocol == connection.protocol
                            then 0 else multiset(old(pending))[p]
    {
      if !storageOk {
        return false;
      }
      var kept := [];
      for i := 0 to |pending|
        invariant pending == old(pending)
        invariant kept == Filter(pending[..i], OtherPartialKey(connection))
      {
        FilterNext(pending, i, OtherPartialKey(connection));
        if !SamePartialKey(connection, pending[i]) {
          kept := kept + [pending[i]];
        }
      }
      assert pending[..|pending|] == pending;
      forall p: PendingConnection
        ensures multiset(kept)[p] == if SamePartialKey(connection, p) then 0 else multiset(pending)[p]
      {
        FilterCount(pending, OtherPartialKey(connection), p);
      }
      pending := kept;
      return true;
    }

    method RemovePendingConnections(requester: InstanceIdent, storageOk: bool) returns (ok: bool)
      modifies this`pending
      ensures ok == storageOk
      ensures pending == if ok then Filter(old(pending), OtherRequester(requester)) else old(pending)
      ensures ok ==>
                forall p :: multiset(pending)[p] == if p.requester == requester then 0 else multiset(old(pending))[p]
    {
      if !storageOk {
        return false;
      }
      var kept := [];
      for i := 0 to |pending|
        invariant pending == old(pending)
        invariant kept == Filter(pending[..i], OtherRequester(requester))
      {
        FilterNext(pending, i, OtherRequester(requester));
        if pending[i].requester != requester {
          kept := kept + [pending[i]];
        }
      }
      assert pending[..|pending|] == pending;
      forall p: PendingConnection
        ensures multiset(kept)[p] == if p.requester == requester then 0 else multiset(pending)[p]
      {
        FilterCount(pending, OtherRequester(requester), p);
      }
      pending := kept;
      return true;
    }
  }
}
