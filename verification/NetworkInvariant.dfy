/**
 * What holds of the network manager between its locked sections.
 */
module NetworkInvariant {
  import opened Cidr
  import opened NetPool
  import opened Seqs
  import opened IpSubnets
  import opened NetworkTypes
  import opened NetworkDatabase
  import opened NetworkSpec

  // Addresses

  datatype Owner = Node(nodeID: NodeID) | Inst(nodeID: NodeID, ident: InstanceIdent)

  /** The owner holds the address in the network. */
  ghost predicate Uses(ns: NetworkState, o: Owner, a: Addr) {
    && o.nodeID in ns.hosts
    && match o
       case Node(d) => ns.hosts[d].info.ip == a
       case Inst(d, i) => i in ns.hosts[d].instances && ns.hosts[d].instances[i].ip == a
  }

  /** Every host address of the subnet is free, dropped or held by exactly one owner, and only one of these. */
  ghost predicate Partition(ns: NetworkState, free: seq<Addr>, dropped: set<Addr>) {
    && NoDup(free)
    && (forall a | a in free :: HostAddress(ns.network.subnet, a) && a !in dropped)
    && (forall a | a in dropped :: HostAddress(ns.network.subnet, a))
    && (forall o, a | Uses(ns, o, a) :: HostAddress(ns.network.subnet, a) && a !in free && a !in dropped)
    && (forall o, p, a | Uses(ns, o, a) && Uses(ns, p, a) :: o == p)
    && (forall a: Addr | HostAddress(ns.network.subnet, a) :: a in free || a in dropped || exists o :: Uses(ns, o, a))
  }

  ghost predicate AddressesOk(nets: Nets, used: map<NetworkID, Subnetwork>, dropped: map<NetworkID, set<Addr>>) {
    && used.Keys == nets.Keys
    && dropped.Keys <= nets.Keys
    && (forall n | n in nets :: used[n].subnet == nets[n].network.subnet &&
                                Partition(nets[n], used[n].ips, DroppedIn(dropped, n)))
  }

  ghost predicate Partitioned(s: State) {
    AddressesOk(s.nets, s.ip.used, s.dropped)
  }

  /** Subnets and addresses are neither lost nor given twice. */
  ghost predicate Apportioned(s: State) {
    Conserved(PrivatePool(), s.ip) && Partitioned(s)
  }

  // Memory and tables

  /** Networks and nodes with a row are in memory, and the foreign keys are respected. */
  ghost predicate RowsWithin(nets: Nets, db: Tables) {
    && (forall n | n in db.networks :: n in nets && nets[n].network == db.networks[n] && db.networks[n].networkID == n)
    && (forall h | h in db.hosts ::
          && HasHost(nets, h) && HostAt(nets, h) == db.hosts[h]
          && db.hosts[h].nodeID == h.nodeID && h.networkID in db.networks)
    && (forall i | i in db.instances :: HostKey(db.instances[i].networkID, db.instances[i].nodeID) in db.hosts)
  }

  /** Every network and node in memory has a row. */
  ghost predicate RowsComplete(nets: Nets, db: Tables) {
    && (forall n | n in nets :: n in db.networks)
    && (forall h | HasHost(nets, h) :: h in db.hosts)
  }

  function SlotOf(x: Instance): Slot {
    Slot(x.networkID, x.nodeID, x.ident)
  }

  ghost predicate MirrorInstances(nets: Nets, rows: map<InstanceIdent, Instance>) {
    && (forall k | Held(nets, k) :: k.ident in rows && rows[k.ident] == At(nets, k) && SlotOf(At(nets, k)) == k)
    && (forall i | i in rows :: rows[i].ident == i && Held(nets, SlotOf(rows[i])))
  }

  /** What is left of the agreement after a node or a network could not be written. */
  ghost predicate TablesOk(nets: Nets, db: Tables) {
    RowsWithin(nets, db) && MirrorInstances(nets, db.instances)
  }

  /** The tables say what memory says. */
  ghost predicate Mirror(nets: Nets, db: Tables) {
    TablesOk(nets, db) && RowsComplete(nets, db)
  }

  /** An instance is held in at most one place of all networks. */
  lemma HeldOnce(nets: Nets, rows: map<InstanceIdent, Instance>, j: Slot, k: Slot)
    requires MirrorInstances(nets, rows) && Held(nets, j) && Held(nets, k) && j.ident == k.ident
    ensures j == k
  {
  }

  // Pending connections

  /** The requester is held, with the recorded node, network, address and subnet. */
  ghost predicate LiveRecord(nets: Nets, p: PendingConnection) {
    var k := Slot(p.networkID, p.nodeID, p.requester);
    && Held(nets, k)
    && At(nets, k).ip == p.requesterIP
    && nets[p.networkID].network.subnet == p.requesterSubnet
  }

  ghost predicate RecordsLive(nets: Nets, pending: seq<PendingConnection>, rows: seq<PendingConnection>) {
    (forall p | p in pending :: LiveRecord(nets, p)) && (forall p | p in rows :: LiveRecord(nets, p))
  }

  /** Every record is live, and memory has no more copies of it than the table. */
  ghost predicate Live(nets: Nets, pending: seq<PendingConnection>, rows: seq<PendingConnection>) {
    RecordsLive(nets, pending, rows) && Within(pending, rows)
  }

  // Host names

  ghost predicate NamesUnique(names: HostNames) {
    forall a, b, i, j |
      a in names && b in names && 0 <= i < |names[a]| && 0 <= j < |names[b]| && names[a][i] == names[b][j] ::
      a == b && i == j
  }

  ghost predicate HolderOf(nets: Nets, k: Slot, a: Addr) {
    Held(nets, k) && At(nets, k).ip == a
  }

  ghost predicate NamesOk(nets: Nets, names: HostNames) {
    && NamesUnique(names)
    && (forall a | a in names :: exists k :: HolderOf(nets, k, a))
  }

  // The whole

  /** The instance table and the records follow memory. */
  ghost predicate Tracked(s: State) {
    TablesOk(s.nets, s.db) && Live(s.nets, s.pending, s.db.pending)
  }

  /** What is left of that when an insert of a record has failed. */
  ghost predicate Alive(s: State) {
    TablesOk(s.nets, s.db) && RecordsLive(s.nets, s.pending, s.db.pending)
  }

  ghost predicate Inv(s: State) {
    Apportioned(s) && Tracked(s) && NamesOk(s.nets, s.names)
  }

  // Partition of one network

  lemma NoDupRotated<T>(s: seq<T>)
    requires NoDup(s) && s != []
    ensures NoDup(s[1..] + [s[0]]) && NoDup(s[1..]) && s[0] !in s[1..]
  {
  }

  lemma PartitionRotated(ns: NetworkState, free: seq<Addr>, dropped: set<Addr>)
    requires Partition(ns, free, dropped) && free != []
    ensures Partition(ns, free[1..] + [free[0]], dropped)
  {
    assert forall a :: a in free[1..] + [free[0]] <==> a in free;
    NoDupRotated(free);
  }

  lemma NoDupAppend<T>(s: seq<T>, x: T)
    requires NoDup(s) && x !in s
    ensures NoDup(s + [x])
  {
  }

  /** The head of the free list goes to a new owner. */
  lemma PartitionTaken(ns: NetworkState, ns': NetworkState, free: seq<Addr>, dropped: set<Addr>, owner: Owner)
    requires Partition(ns, free, dropped) && free != [] && ns'.network == ns.network
    requires forall o, a :: Uses(ns', o, a) <==> Uses(ns, o, a) || (o == owner && a == free[0])
    requires forall a :: !Uses(ns, owner, a)
    ensures Partition(ns', free[1..], dropped)
  {
    NoDupRotated(free);
    assert forall a :: a in free <==> a in free[1..] || a == free[0];
    forall a: Addr | HostAddress(ns.network.subnet, a)
      ensures a in free[1..] || a in dropped || exists o :: Uses(ns', o, a)
    {
      if a == free[0] {
        assert Uses(ns', owner, a);
      } else if a !in free && a !in dropped {
        var o :| Uses(ns, o, a);
        assert Uses(ns', o, a);
      }
    }
  }

  /** An owner gives its address back. */
  lemma PartitionGiven(ns: NetworkState, ns': NetworkState, free: seq<Addr>, dropped: set<Addr>, owner: Owner, ip: Addr)
    requires Partition(ns, free, dropped) && Uses(ns, owner, ip) && ns'.network == ns.network
    requires forall o, a :: Uses(ns', o, a) <==> Uses(ns, o, a) && o != owner
    requires forall a | Uses(ns, owner, a) :: a == ip
    ensures Partition(ns', free + [ip], dropped)
  {
    NoDupAppend(free, ip);
    assert forall a :: a in free + [ip] <==> a in free || a == ip;
    forall a: Addr | HostAddress(ns.network.subnet, a)
      ensures a in free + [ip] || a in dropped || exists o :: Uses(ns', o, a)
    {
      if a !in free && a !in dropped && a != ip {
        var o :| Uses(ns, o, a);
        assert Uses(ns', o, a);
      }
    }
  }

  /** A node without instances goes and its address is dropped. */
  lemma PartitionDropped(ns: NetworkState, ns': NetworkState, free: seq<Addr>, dropped: set<Addr>, owner: Owner,
                         ip: Addr)
    requires Partition(ns, free, dropped) && Uses(ns, owner, ip) && ns'.network == ns.network
    requires forall o, a :: Uses(ns', o, a) <==> Uses(ns, o, a) && o != owner
    requires forall a | Uses(ns, owner, a) :: a == ip
    ensures Partition(ns', free, dropped + {ip})
  {
    forall a: Addr | HostAddress(ns.network.subnet, a)
      ensures a in free || a in dropped + {ip} || exists o :: Uses(ns', o, a)
    {
      if a !in free && a !in dropped && a != ip {
        var o :| Uses(ns, o, a);
        assert Uses(ns', o, a);
      }
    }
  }

  /** A network that has just got its subnet and its first node. */
  lemma PartitionNew(network: Network, host: Host, free: seq<Addr>)
    requires free == HostAddresses(network.subnet) && free != [] && host.ip == free[0]
    ensures Partition(FirstHost(network, host), free[1..], {})
  {
    HostAddressesComplete(network.subnet);
    var ns := FirstHost(network, host);
    assert NoDup(free);
    NoDupRotated(free);
    assert forall a :: a in free <==> a in free[1..] || a == free[0];
    assert forall o, a :: Uses(ns, o, a) <==> o == Node(host.nodeID) && a == host.ip;
    assert Uses(ns, Node(host.nodeID), host.ip);
  }

  // Uses after the updates of the nested maps

  lemma UsesAfterPut(nets: Nets, k: Slot, x: Instance)
    requires HasHost(nets, HostKey(k.networkID, k.nodeID)) && !Held(nets, k)
    ensures var n := k.networkID;
            forall o, a :: Uses(PutInstance(nets, k, x)[n], o, a) <==>
                           Uses(nets[n], o, a) || (o == Inst(k.nodeID, k.ident) && a == x.ip)
  {
  }

  lemma UsesAfterDrop(nets: Nets, k: Slot)
    requires Held(nets, k)
    ensures var n := k.networkID;
            forall o, a :: Uses(DropInstance(nets, k)[n], o, a) <==>
                           Uses(nets[n], o, a) && o != Inst(k.nodeID, k.ident)
  {
  }

  lemma UsesAfterPutHost(nets: Nets, networkID: NetworkID, host: Host)
    requires networkID in nets && host.nodeID !in nets[networkID].hosts
    ensures forall o, a :: Uses(PutHost(nets, networkID, host)[networkID], o, a) <==>
                           Uses(nets[networkID], o, a) || (o == Node(host.nodeID) && a == host.ip)
  {
  }

  lemma UsesAfterDropHost(nets: Nets, h: HostKey)
    requires HasHost(nets, h) && nets[h.networkID].hosts[h.nodeID].instances == map[]
    ensures forall o, a :: Uses(DropHost(nets, h)[h.networkID], o, a) <==>
                           Uses(nets[h.networkID], o, a) && o != Node(h.nodeID)
  {
  }

  // Addresses of all networks

  /** What holds of each network with its subnet, free addresses and dropped addresses. */
  type NetworkProperty = (NetworkState, Subnetwork, set<Addr>) -> bool

  ghost predicate EachNetwork(ok: NetworkProperty, nets: Nets, used: map<NetworkID, Subnetwork>,
                              dropped: map<NetworkID, set<Addr>>) {
    && used.Keys == nets.Keys
    && dropped.Keys <= nets.Keys
    && (forall n | n in nets :: ok(nets[n], used[n], DroppedIn(dropped, n)))
  }

  /** One network is new or changed, the others are as before or gone. */
  lemma EachButOne(ok: NetworkProperty, nets: Nets, used: map<NetworkID, Subnetwork>,
                   dropped: map<NetworkID, set<Addr>>, nets': Nets, used': map<NetworkID, Subnetwork>,
                   dropped': map<NetworkID, set<Addr>>, n: NetworkID)
    requires EachNetwork(ok, nets, used, dropped)
    requires used'.Keys == nets'.Keys && dropped'.Keys <= nets'.Keys
    requires n in nets' ==> ok(nets'[n], used'[n], DroppedIn(dropped', n))
    requires forall m | m in nets' && m != n ::
               && m in nets && nets'[m] == nets[m]
               && used'[m] == used[m] && DroppedIn(dropped', m) == DroppedIn(dropped, m)
    ensures EachNetwork(ok, nets', used', dropped')
  {
  }

  ghost function Partitions(): NetworkProperty {
    (ns: NetworkState, u: Subnetwork, gone: set<Addr>) => u.subnet == ns.network.subnet && Partition(ns, u.ips, gone)
  }

  lemma EachPartitioned(nets: Nets, used: map<NetworkID, Subnetwork>, dropped: map<NetworkID, set<Addr>>)
    ensures EachNetwork(Partitions(), nets, used, dropped) <==> AddressesOk(nets, used, dropped)
  {
  }

  lemma OneNetworkChanged(nets: Nets, used: map<NetworkID, Subnetwork>, dropped: map<NetworkID, set<Addr>>,
                          n: NetworkID, ns': NetworkState, u': Subnetwork)
    requires AddressesOk(nets, used, dropped) && u'.subnet == ns'.network.subnet
    requires Partition(ns', u'.ips, DroppedIn(dropped, n))
    ensures AddressesOk(nets[n := ns'], used[n := u'], dropped)
  {
    EachPartitioned(nets, used, dropped);
    EachButOne(Partitions(), nets, used, dropped, nets[n := ns'], used[n := u'], dropped, n);
    EachPartitioned(nets[n := ns'], used[n := u'], dropped);
  }

  lemma AddressesAfterTake(nets: Nets, ip: IpState, dropped: map<NetworkID, set<Addr>>, n: NetworkID,
                           ns': NetworkState, owner: Owner)
    requires AddressesOk(nets, ip.used, dropped) && n in nets && TakeIP(ip, n).Some?
    requires ns'.network == nets[n].network
    requires forall o, a :: Uses(ns', o, a) <==> Uses(nets[n], o, a) || (o == owner && a == TakeIP(ip, n).value.0)
    requires forall a :: !Uses(nets[n], owner, a)
    ensures AddressesOk(nets[n := ns'], TakeIP(ip, n).value.1.used, dropped)
  {
    PartitionTaken(nets[n], ns', ip.used[n].ips, DroppedIn(dropped, n), owner);
    OneNetworkChanged(nets, ip.used, dropped, n, ns', ip.used[n].(ips := ip.used[n].ips[1..]));
  }

  lemma AddressesAfterGive(nets: Nets, ip: IpState, dropped: map<NetworkID, set<Addr>>, n: NetworkID,
                           ns': NetworkState, owner: Owner, a: Addr)
    requires AddressesOk(nets, ip.used, dropped) && n in nets && Uses(nets[n], owner, a)
    requires ns'.network == nets[n].network
    requires forall o, b :: Uses(ns', o, b) <==> Uses(nets[n], o, b) && o != owner
    ensures AddressesOk(nets[n := ns'], GiveIP(ip, n, a).used, dropped)
  {
    PartitionGiven(nets[n], ns', ip.used[n].ips, DroppedIn(dropped, n), owner, a);
    OneNetworkChanged(nets, ip.used, dropped, n, ns', ip.used[n].(ips := ip.used[n].ips + [a]));
  }

  /** An address that was taken and given back at once. */
  lemma AddressesRotated(nets: Nets, ip: IpState, dropped: map<NetworkID, set<Addr>>, n: NetworkID)
    requires AddressesOk(nets, ip.used, dropped) && n in nets && TakeIP(ip, n).Some?
    ensures AddressesOk(nets, GiveIP(TakeIP(ip, n).value.1, n, TakeIP(ip, n).value.0).used, dropped)
  {
    PartitionRotated(nets[n], ip.used[n].ips, DroppedIn(dropped, n));
  }

  lemma OneNetworkDrops(nets: Nets, used: map<NetworkID, Subnetwork>, dropped: map<NetworkID, set<Addr>>,
                        n: NetworkID, ns': NetworkState, gone: set<Addr>)
    requires AddressesOk(nets, used, dropped) && n in nets && ns'.network == nets[n].network
    requires Partition(ns', used[n].ips, gone)
    ensures AddressesOk(nets[n := ns'], used, dropped[n := gone])
  {
    EachPartitioned(nets, used, dropped);
    EachButOne(Partitions(), nets, used, dropped, nets[n := ns'], used, dropped[n := gone], n);
    EachPartitioned(nets[n := ns'], used, dropped[n := gone]);
  }

  lemma AddressesAfterDropHost(nets: Nets, used: map<NetworkID, Subnetwork>, dropped: map<NetworkID, set<Addr>>,
                               h: HostKey)
    requires AddressesOk(nets, used, dropped)
    requires HasHost(nets, h) && nets[h.networkID].hosts[h.nodeID].instances == map[]
    ensures AddressesOk(DropHost(nets, h), used,
                        dropped[h.networkID := DroppedIn(dropped, h.networkID) + {HostAt(nets, h).ip}])
  {
    var (n, a) := (h.networkID, HostAt(nets, h).ip);
    var (ns', gone) := (DropHost(nets, h)[n], DroppedIn(dropped, n) + {a});
    assert Partition(ns', used[n].ips, gone) by {
      UsesAfterDropHost(nets, h);
      PartitionDropped(nets[n], ns', used[n].ips, DroppedIn(dropped, n), Node(h.nodeID), a);
    }
    OneNetworkDrops(nets, used, dropped, n, ns', gone);
  }

  // Lookups after the updates

  ghost predicate SameNetworks(nets: Nets, nets': Nets) {
    nets'.Keys == nets.Keys && forall n | n in nets :: nets'[n].network == nets[n].network
  }

  ghost predicate SameHosts(nets: Nets, nets': Nets) {
    && (forall h :: HasHost(nets', h) <==> HasHost(nets, h))
    && (forall h | HasHost(nets, h) :: HostAt(nets', h) == HostAt(nets, h))
  }

  ghost predicate SameInstances(nets: Nets, nets': Nets) {
    && (forall k :: Held(nets', k) <==> Held(nets, k))
    && (forall k | Held(nets, k) :: At(nets', k) == At(nets, k))
  }

  ghost predicate OneMore(nets: Nets, nets': Nets, k: Slot) {
    && (forall j :: Held(nets', j) <==> Held(nets, j) || j == k)
    && (forall j | Held(nets, j) :: At(nets', j) == At(nets, j))
  }

  lemma LookupAfterPut(nets: Nets, k: Slot, x: Instance)
    requires HasHost(nets, HostKey(k.networkID, k.nodeID)) && !Held(nets, k)
    ensures var nets' := PutInstance(nets, k, x);
            SameNetworks(nets, nets') && SameHosts(nets, nets') && OneMore(nets, nets', k) && At(nets', k) == x
  {
  }

  lemma LookupAfterDrop(nets: Nets, k: Slot)
    requires Held(nets, k)
    ensures var nets' := DropInstance(nets, k);
            SameNetworks(nets, nets') && SameHosts(nets, nets') && OneMore(nets', nets, k) && !Held(nets', k)
  {
  }

  lemma LookupAfterPutHost(nets: Nets, networkID: NetworkID, host: Host)
    requires networkID in nets && host.nodeID !in nets[networkID].hosts
    ensures var (nets', h) := (PutHost(nets, networkID, host), HostKey(networkID, host.nodeID));
            && SameNetworks(nets, nets') && SameInstances(nets, nets')
            && (forall g :: HasHost(nets', g) <==> HasHost(nets, g) || g == h)
            && (forall g | HasHost(nets, g) :: HostAt(nets', g) == HostAt(nets, g))
            && HostAt(nets', h) == host
  {
  }

  lemma LookupAfterDropHost(nets: Nets, h: HostKey)
    requires HasHost(nets, h) && nets[h.networkID].hosts[h.nodeID].instances == map[]
    ensures var nets' := DropHost(nets, h);
            && SameNetworks(nets, nets') && SameInstances(nets, nets')
            && (forall g :: HasHost(nets', g) <==> HasHost(nets, g) && g != h)
            && (forall g | HasHost(nets', g) :: HostAt(nets', g) == HostAt(nets, g))
  {
  }

  lemma LookupAfterNewNetwork(nets: Nets, network: Network, host: Host)
    requires network.networkID !in nets
    ensures var n := network.networkID;
            var (nets', h) := (nets[n := FirstHost(network, host)], HostKey(n, host.nodeID));
            && SameInstances(nets, nets')
            && (forall g :: HasHost(nets', g) <==> HasHost(nets, g) || g == h)
            && (forall g | HasHost(nets, g) :: HostAt(nets', g) == HostAt(nets, g))
            && !HasHost(nets, h) && HostAt(nets', h) == host
  {
  }

  lemma LookupAfterDropNetwork(nets: Nets, networkID: NetworkID)
    requires networkID in nets && nets[networkID].hosts == map[]
    ensures var nets' := nets - {networkID};
            SameHosts(nets, nets') && SameInstances(nets, nets')
    ensures forall h | HasHost(nets, h) :: h.networkID != networkID
    ensures forall k | Held(nets, k) :: k.networkID != networkID
  {
  }
}
