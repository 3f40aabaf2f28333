/**
 * How each locked section keeps the addresses partitioned, or breaks the partition.
 */
module NetworkAddresses {
  import opened Cidr
  import opened Wrappers
  import opened NetPool
  import opened Seqs
  import opened IpSubnets
  import opened NetworkTypes
  import opened NetworkDatabase
  import opened FirewallRules
  import opened NetworkSpec
  import opened NetworkInvariant
  import opened NetworkSteps
  import opened NetworkTables

  // Addresses across networks

  lemma HeldIsUsed(nets: Nets, k: Slot)
    requires Held(nets, k)
    ensures Uses(nets[k.networkID], Inst(k.nodeID, k.ident), At(nets, k).ip)
  {
  }

  lemma UsedAddressInSubnet(s: State, n: NetworkID, o: Owner, a: Addr)
    requires Partitioned(s) && n in s.nets && Uses(s.nets[n], o, a)
    ensures HostAddress(s.nets[n].network.subnet, a) && a !in s.ip.used[n].ips
  {
    assert Partition(s.nets[n], s.ip.used[n].ips, DroppedIn(s.dropped, n));
  }

  /** No two networks hold the same address. */
  lemma HostAddressOfOneNetwork(s: State, n: NetworkID, m: NetworkID, a: Addr)
    requires Apportioned(s) && n in s.nets && m in s.nets
    requires HostAddress(s.nets[n].network.subnet, a) && HostAddress(s.nets[m].network.subnet, a)
    ensures n == m
  {
    NetPoolsDisjoint();
    if n != m {
      NetworksShareNoAddress(PrivatePool(), s.ip, n, m, a);
    }
  }

  /** An address is used in one network and by one owner there. */
  lemma OneOwner(s: State, n: NetworkID, o: Owner, m: NetworkID, p: Owner, a: Addr)
    requires Apportioned(s) && n in s.nets && m in s.nets && Uses(s.nets[n], o, a) && Uses(s.nets[m], p, a)
    ensures n == m && o == p
  {
    UsedAddressInSubnet(s, n, o, a);
    UsedAddressInSubnet(s, m, p, a);
    HostAddressOfOneNetwork(s, n, m, a);
    assert Partition(s.nets[n], s.ip.used[n].ips, DroppedIn(s.dropped, n));
  }

  /** Every held address has one holder in all networks. */
  lemma OneHolder(s: State, j: Slot, k: Slot)
    requires Apportioned(s) && Held(s.nets, j) && Held(s.nets, k) && At(s.nets, j).ip == At(s.nets, k).ip
    ensures j == k
  {
    HeldIsUsed(s.nets, j);
    HeldIsUsed(s.nets, k);
    OneOwner(s, j.networkID, Inst(j.nodeID, j.ident), k.networkID, Inst(k.nodeID, k.ident), At(s.nets, k).ip);
  }

  ghost predicate IsFree(s: State, n: NetworkID, a: Addr) {
    n in s.ip.used && a in s.ip.used[n].ips
  }

  lemma UsedNotFree(s: State, n: NetworkID, o: Owner, m: NetworkID, a: Addr)
    requires Apportioned(s) && n in s.nets && Uses(s.nets[n], o, a)
    ensures !IsFree(s, m, a)
  {
    UsedAddressInSubnet(s, n, o, a);
    if IsFree(s, m, a) {
      assert Partition(s.nets[m], s.ip.used[m].ips, DroppedIn(s.dropped, m));
      HostAddressOfOneNetwork(s, m, n, a);
    }
  }

  /** A free address has no host names. */
  lemma FreeAddressUnnamed(s: State, n: NetworkID, a: Addr)
    requires Apportioned(s) && NamesOk(s.nets, s.names) && IsFree(s, n, a)
    ensures a !in s.names
  {
    if a in s.names {
      var k :| HolderOf(s.nets, k, a);
      HeldIsUsed(s.nets, k);
      UsedNotFree(s, k.networkID, Inst(k.nodeID, k.ident), n, a);
    }
  }

  // What breaks the partition

  /** An address that is held and free at once. */
  lemma HeldWhileFree(s: State, k: Slot)
    requires Held(s.nets, k) && IsFree(s, k.networkID, At(s.nets, k).ip)
    ensures !Partitioned(s)
  {
    HeldIsUsed(s.nets, k);
    if Partitioned(s) {
      UsedAddressInSubnet(s, k.networkID, Inst(k.nodeID, k.ident), At(s.nets, k).ip);
    }
  }

  lemma FreeTwice(s: State, n: NetworkID, i: nat, j: nat)
    requires n in s.nets && n in s.ip.used
    requires i < j < |s.ip.used[n].ips| && s.ip.used[n].ips[i] == s.ip.used[n].ips[j]
    ensures !Partitioned(s)
  {
    assert s.ip.used[n].ips[i] == s.ip.used[n].ips[j];
  }

  // Allocation

  /** The allocator with the next address of the network taken and given back: the free list is rotated. */
  function Rotated(ip: IpState, n: NetworkID): IpState
    requires TakeIP(ip, n).Some?
  {
    GiveIP(TakeIP(ip, n).value.1, n, TakeIP(ip, n).value.0)
  }

  lemma RotationApportioned(s: State, n: NetworkID)
    requires Apportioned(s) && TakeIP(s.ip, n).Some?
    ensures Apportioned(s.(ip := Rotated(s.ip, n)))
  {
    var (ip, ips) := TakeIP(s.ip, n).value;
    TakeIPConserves(PrivatePool(), s.ip, n);
    AddressesRotated(s.nets, s.ip, s.dropped, n);
    GiveIPConserves(PrivatePool(), ips, n, ip);
  }

  lemma InstalledApportioned(s: State, k: Slot, x: Instance)
    requires Apportioned(s) && HasHost(s.nets, HostKey(k.networkID, k.nodeID)) && !Held(s.nets, k)
    requires TakeIP(s.ip, k.networkID).Some? && x.ip == TakeIP(s.ip, k.networkID).value.0
    ensures Apportioned(s.(ip := TakeIP(s.ip, k.networkID).value.1, nets := PutInstance(s.nets, k, x)))
  {
    TakeIPConserves(PrivatePool(), s.ip, k.networkID);
    UsesAfterPut(s.nets, k, x);
    var ns' := PutInstance(s.nets, k, x)[k.networkID];
    AddressesAfterTake(s.nets, s.ip, s.dropped, k.networkID, ns', Inst(k.nodeID, k.ident));
  }

  /** Addresses do not depend on names, records and tables. */
  lemma ApportionedAlike(s: State, s': State)
    requires Apportioned(s) && s'.nets == s.nets && s'.ip == s.ip && s'.dropped == s.dropped
    ensures Apportioned(s')
  {
  }

  lemma InstallApportioned(s: State, k: Slot, dnsServers: seq<string>, req: Request, env: Env)
    requires Apportioned(s) && HasHost(s.nets, HostKey(k.networkID, k.nodeID)) && !Held(s.nets, k)
    requires TakeIP(s.ip, k.networkID).Some? && IsOrder(env.order)
    ensures var (ip, ips) := TakeIP(s.ip, k.networkID).value;
            Apportioned(Install(s.(ip := ips), k, ip, dnsServers, req, env).0)
  {
    var (ip, ips) := TakeIP(s.ip, k.networkID).value;
    var s' := Install(s.(ip := ips), k, ip, dnsServers, req, env).0;
    if Install(s.(ip := ips), k, ip, dnsServers, req, env).1.Failure? {
      InstallFailed(s.(ip := ips), k, ip, dnsServers, req, env);
      RotationApportioned(s, k.networkID);
      ApportionedAlike(s.(ip := Rotated(s.ip, k.networkID)), s');
    } else {
      var x, unresolved := InstallCases(s.(ip := ips), k, ip, dnsServers, req, env);
      InstalledApportioned(s, k, x);
      ApportionedAlike(s.(ip := ips, nets := PutInstance(s.nets, k, x)), s');
    }
  }

  lemma InstallKeepsNetworks(s: State, k: Slot, ip: Addr, dnsServers: seq<string>, req: Request, env: Env)
    requires HasHost(s.nets, HostKey(k.networkID, k.nodeID)) && IsOrder(env.order)
    ensures Install(s, k, ip, dnsServers, req, env).0.nets.Keys == s.nets.Keys
  {
  }

  /** Moving an instance to another node frees the address that the instance keeps, whatever happens next. */
  lemma MigrationBreaks(s: State, k: Slot, j: Slot, req: Request, env: Env)
    requires HasHost(s.nets, HostKey(k.networkID, k.nodeID)) && Held(s.nets, j) && IsOrder(env.order)
    requires Matches(j, k, Elsewhere) && k.networkID in s.ip.used
    ensures !Partitioned(Migrate(s, k, j, req, env).0)
  {
    var x, s' := At(s.nets, j), Migrate(s, k, j, req, env).0;
    var free := s.ip.used[k.networkID].ips + [x.ip];
    MigrateCases(s, k, j, req, env);
    if !DeleteInstance(s.db, k.ident, env.removeInstanceOk).1 {
      HeldWhileFree(s', j);
    } else {
      var s2 := Unplaced(s, k, j, env.answers.forgetOk);
      InstallAddress(s2, k, x.ip, x.dnsServers, req, env);
      InstallKeepsNetworks(s2, k, x.ip, x.dnsServers, req, env);
      if Install(s2, k, x.ip, x.dnsServers, req, env).1.Failure? {
        assert s'.ip.used[k.networkID].ips == free + [x.ip];
        FreeTwice(s', k.networkID, |free| - 1, |free|);
      } else {
        HeldWhileFree(s', k);
      }
    }
  }

  /** The partition survives every allocation that is no move, and none that is. */
  lemma AllocateApportioned(s: State, k: Slot, req: Request, env: Env)
    requires Apportioned(s) && IsOrder(env.order)
    ensures var s' := Allocate(s, k, req, env).0; if Migrates(s, k) then !Partitioned(s') else Apportioned(s')
  {
    var j := AllocateCases(s, k, req, env);
    if HasHost(s.nets, HostKey(k.networkID, k.nodeID)) {
      if Held(s.nets, k) {
        var unresolved := RefreshCases(s, k, req, env);
        ApportionedAlike(s, Refresh(s, k, req, env).0);
      } else if j.Some? {
        MigrationBreaks(s, k, j.value, req, env);
      } else if TakeIP(s.ip, k.networkID).Some? {
        InstallApportioned(s, k, [env.dnsIP], req, env);
      }
    }
  }

  // Release of an instance

  lemma DroppedApportioned(s: State, k: Slot)
    requires Apportioned(s) && Held(s.nets, k)
    ensures Apportioned(s.(ip := GiveIP(s.ip, k.networkID, At(s.nets, k).ip), nets := DropInstance(s.nets, k)))
  {
    var ip, nets' := At(s.nets, k).ip, DropInstance(s.nets, k);
    GiveIPConserves(PrivatePool(), s.ip, k.networkID, ip);
    HeldIsUsed(s.nets, k);
    UsesAfterDrop(s.nets, k);
    AddressesAfterGive(s.nets, s.ip, s.dropped, k.networkID, nets'[k.networkID], Inst(k.nodeID, k.ident), ip);
  }

  /** A storage failure leaves the address free while the instance still holds it. */
  lemma ReleaseSlotApportioned(s: State, k: Slot, removeOk: bool, forgetOk: InstanceIdent -> bool)
    requires Apportioned(s) && TablesOk(s.nets, s.db) && Held(s.nets, k)
    ensures var s' := ReleaseSlot(s, k, removeOk, forgetOk).0; if removeOk then Apportioned(s') else !Partitioned(s')
  {
    var s' := ReleaseSlot(s, k, removeOk, forgetOk).0;
    if removeOk {
      TablesReleaseSlot(s, k, true, forgetOk);
      DroppedApportioned(s, k);
      ApportionedAlike(s.(ip := GiveIP(s.ip, k.networkID, At(s.nets, k).ip), nets := DropInstance(s.nets, k)), s');
    } else {
      HeldWhileFree(s', k);
    }
  }

  lemma ReleaseApportioned(s: State, ident: InstanceIdent, nodeID: NodeID, removeOk: bool,
                           forgetOk: InstanceIdent -> bool, order: Order)
    requires Apportioned(s) && TablesOk(s.nets, s.db) && IsOrder(order)
    ensures var s' := ReleaseInstance(s, ident, nodeID, removeOk, forgetOk, order).0;
            if removeOk || !HeldOnNode(s, ident, nodeID) then Apportioned(s') else !Partitioned(s')
  {
    var k := ReleaseCases(s, ident, nodeID, removeOk, forgetOk, order);
    if k.Some? {
      ReleaseSlotApportioned(s, k.value, removeOk, forgetOk);
    }
  }

  // Node networks

  lemma AddedHostApportioned(s: State, networkID: NetworkID, host: Host)
    requires Apportioned(s) && networkID in s.nets && !HasHost(s.nets, HostKey(networkID, host.nodeID))
    requires TakeIP(s.ip, networkID).Some? && host.ip == TakeIP(s.ip, networkID).value.0
    ensures Apportioned(s.(ip := TakeIP(s.ip, networkID).value.1, nets := PutHost(s.nets, networkID, host)))
  {
    TakeIPConserves(PrivatePool(), s.ip, networkID);
    UsesAfterPutHost(s.nets, networkID, host);
    var ns' := PutHost(s.nets, networkID, host)[networkID];
    AddressesAfterTake(s.nets, s.ip, s.dropped, networkID, ns', Node(host.nodeID));
  }

  /** Requesting a subnet gives the network its full address list. */
  lemma RequestedSubnet(ip: IpState, networkID: NetworkID, routes: Option<seq<Route>>)
    requires Conserved(PrivatePool(), ip) && networkID !in ip.used && RequestSubnet(ip, networkID, routes).Some?
    ensures var (subnet, ips) := RequestSubnet(ip, networkID, routes).value;
            && StepsTo(PrivatePool(), ip, ips, networkID)
            && networkID in ips.used && ips.used[networkID] == Subnetwork(subnet, HostAddresses(subnet))
            && TakeIP(ips, networkID).Some?
            && StepsTo(PrivatePool(), ip, TakeIP(ips, networkID).value.1, networkID)
  {
    var (subnet, ips) := RequestSubnet(ip, networkID, routes).value;
    RequestConserves(PrivatePool(), ip, networkID, routes);
    HostAddressesComplete(subnet);
    TakeIPConserves(PrivatePool(), ips, networkID);
  }

  /** One network gets a new state; the others keep theirs. */
  lemma AddressesExtended(nets: Nets, used: map<NetworkID, Subnetwork>, used': map<NetworkID, Subnetwork>,
                          dropped: map<NetworkID, set<Addr>>, n: NetworkID, ns: NetworkState)
    requires AddressesOk(nets, used, dropped) && n !in nets
    requires n in used' && used'[n].subnet == ns.network.subnet && Partition(ns, used'[n].ips, {})
    requires forall m | m != n :: (m in used <==> m in used') && (m in used ==> used[m] == used'[m])
    ensures AddressesOk(nets[n := ns], used', dropped)
  {
    assert used' == used[n := used'[n]];
    OneNetworkChanged(nets, used, dropped, n, ns, used'[n]);
  }

  lemma AddedNetworkApportioned(s: State, network: Network, host: Host, routes: Option<seq<Route>>)
    requires Apportioned(s) && network.networkID !in s.nets && RequestSubnet(s.ip, network.networkID, routes).Some?
    requires var (subnet, ips) := RequestSubnet(s.ip, network.networkID, routes).value;
             && subnet == network.subnet && TakeIP(ips, network.networkID).Some?
             && TakeIP(ips, network.networkID).value.0 == host.ip
    ensures var ips := RequestSubnet(s.ip, network.networkID, routes).value.1;
            Apportioned(s.(ip := TakeIP(ips, network.networkID).value.1,
                           nets := s.nets[network.networkID := FirstHost(network, host)]))
  {
    var n := network.networkID;
    RequestedSubnet(s.ip, n, routes);
    var ips' := TakeIP(RequestSubnet(s.ip, n, routes).value.1, n).value.1;
    PartitionNew(network, host, HostAddresses(network.subnet));
    AddressesExtended(s.nets, s.ip.used, ips'.used, s.dropped, n, FirstHost(network, host));
  }

  lemma NoRowNoChange(s: State, networkID: NetworkID, nodeID: NodeID, e: NodeInput)
    requires Conserved(PrivatePool(), s.ip) && s.ip.used.Keys <= s.nets.Keys && !WritesRow(s, networkID, nodeID, e)
    ensures GetNodeNetworkParams(s, networkID, nodeID, e).0 == s
  {
    if networkID !in s.nets && RequestSubnet(s.ip, networkID, e.routes).Some? {
      RequestedSubnet(s.ip, networkID, e.routes);
    }
  }

  /** A row that cannot be written costs no address: memory has the node and its address is taken. */
  lemma GetNodeApportioned(s: State, networkID: NetworkID, nodeID: NodeID, e: NodeInput)
    requires Apportioned(s)
    ensures Apportioned(GetNodeNetworkParams(s, networkID, nodeID, e).0)
  {
    var s' := GetNodeNetworkParams(s, networkID, nodeID, e).0;
    if WritesRow(s, networkID, nodeID, e) {
      var host, network := GetNodeCases(s, networkID, nodeID, e);
      if networkID in s.nets {
        AddedHostApportioned(s, networkID, host);
        ApportionedAlike(s.(ip := s'.ip, nets := s'.nets), s');
      } else {
        AddedNetworkApportioned(s, network, host, e.routes);
        ApportionedAlike(s.(ip := s'.ip, nets := s'.nets), s');
      }
    } else {
      NoRowNoChange(s, networkID, nodeID, e);
    }
  }

  // Node release

  lemma ApportionedKeptByRelease(forgetOk: InstanceIdent -> bool)
    ensures KeptByRelease((s: State) => Apportioned(s) && TablesOk(s.nets, s.db), forgetOk)
  {
    var inv := (s: State) => Apportioned(s) && TablesOk(s.nets, s.db);
    forall s: State, k: Slot
      ensures ReleaseKeeps(inv, forgetOk, s, k)
    {
      if Apportioned(s) && TablesOk(s.nets, s.db) && Held(s.nets, k) {
        TablesReleaseSlot(s, k, true, forgetOk);
        ReleaseSlotApportioned(s, k, true, forgetOk);
      }
    }
  }

  lemma {:induction false} ReleaseRowsOnlyFree(s: State, slots: seq<Slot>, failAt: nat,
                                               forgetOk: InstanceIdent -> bool, n: NetworkID, a: Addr)
    requires forall k | k in slots :: Held(s.nets, k)
    requires IsFree(s, n, a)
    ensures IsFree(ReleaseRows(s, slots, failAt, forgetOk).0, n, a)
    decreases slots
  {
    if slots != [] {
      var (s1, ok) := ReleaseRow(s, slots[0], failAt != 0, forgetOk);
      if ok {
        ReleaseRowsOnlyFree(s1, slots[1..], failAt - 1, forgetOk, n, a);
      }
    }
  }

  /** Once the loop has started, the first instance is free while memory still holds it. */
  lemma StartedRowsBreak(s: State, slots: seq<Slot>, failAt: nat, forgetOk: InstanceIdent -> bool, s': State)
    requires slots != [] && forall k | k in slots :: Held(s.nets, k)
    requires slots[0].networkID in s.ip.used
    requires s'.nets == s.nets && s'.ip == ReleaseRows(s, slots, failAt, forgetOk).0.ip
    ensures !Partitioned(s')
  {
    var k := slots[0];
    assert k in slots;
    var (s1, ok) := ReleaseRow(s, k, failAt != 0, forgetOk);
    assert IsFree(s1, k.networkID, At(s.nets, k).ip);
    if ok {
      ReleaseRowsOnlyFree(s1, slots[1..], failAt - 1, forgetOk, k.networkID, At(s.nets, k).ip);
    }
    HeldWhileFree(s', k);
  }

  lemma WithoutHostApportioned(s: State, h: HostKey)
    requires Apportioned(s) && HasHost(s.nets, h) && s.nets[h.networkID].hosts[h.nodeID].instances == map[]
    ensures Apportioned(WithoutHost(s, h))
  {
    AddressesAfterDropHost(s.nets, s.ip.used, s.dropped, h);
  }

  lemma AddressesAfterDropNetwork(nets: Nets, ip: IpState, dropped: map<NetworkID, set<Addr>>, n: NetworkID)
    requires AddressesOk(nets, ip.used, dropped) && n in nets
    ensures AddressesOk(nets - {n}, ReleasePool(ip, n).used, dropped - {n})
  {
    var (nets', used', dropped') := (nets - {n}, ReleasePool(ip, n).used, dropped - {n});
    EachPartitioned(nets, ip.used, dropped);
    EachButOne(Partitions(), nets, ip.used, dropped, nets', used', dropped', n);
    EachPartitioned(nets', used', dropped');
  }

  /** The subnet goes back first: a storage failure leaves the network in memory without one. */
  lemma RemoveNetworkApportioned(s: State, networkID: NetworkID, storageOk: bool)
    requires Apportioned(s) && networkID in s.nets && RemoveNetwork(s, networkID, storageOk).1 == storageOk
    ensures var s' := RemoveNetwork(s, networkID, storageOk).0;
            if storageOk then Apportioned(s') else !Partitioned(s')
  {
    if storageOk {
      ReleaseConserves(PrivatePool(), s.ip, networkID);
      AddressesAfterDropNetwork(s.nets, s.ip, s.dropped, networkID);
    } else {
      var s' := RemoveNetwork(s, networkID, storageOk).0;
      assert networkID in s'.nets && networkID !in s'.ip.used;
    }
  }

  /** Removing a node without instances, and its network after the last node. */
  lemma RemoveHostApportioned(s: State, h: HostKey, failAt: nat, calls: nat)
    requires Apportioned(s) && TablesAll(s, false) && HasHost(s.nets, h) && h in s.db.hosts && calls < failAt
    requires s.nets[h.networkID].hosts[h.nodeID].instances == map[]
    ensures var s' := RemoveHost(s, h, failAt, calls).0;
            if LastHost(s, h) && failAt == calls + 1 then !Partitioned(s') else Apportioned(s')
  {
    TablesWithoutHost(s, h, false);
    WithoutHostApportioned(s, h);
    RemoveHostCases(s, h, failAt, calls);
    if LastHost(s, h) {
      TablesRemoveNetwork(WithoutHost(s, h), h.networkID, failAt != calls + 1, false);
      RemoveNetworkApportioned(WithoutHost(s, h), h.networkID, failAt != calls + 1);
    }
  }

  /** Some call fails; a node without instances may fail at its own row, before anything has changed. */
  ghost predicate ReleaseFails(s: State, h: HostKey, failAt: nat, order: Order) {
    && HasHost(s.nets, h) && h in s.db.hosts
    && failAt < ReleaseCalls(s, h, order)
    && !(failAt == 0 && Filter(order(s.nets), SlotsOn(h)) == [])
  }

  /** Losing rows is one way to fail. */
  lemma LosingRowsFails(s: State, h: HostKey, failAt: nat, order: Order)
    requires TablesOk(s.nets, s.db) && IsOrder(order) && LosesRows(s, h, failAt, order)
    ensures ReleaseFails(s, h, failAt, order)
  {
    var slots := Filter(order(s.nets), SlotsOn(h));
    assert Enumerates(order(s.nets), s.nets);
    SlotsOfHost(s.nets, order(s.nets), h);
    assert slots[0] in slots;
    HeldOnWrittenHost(s, slots[0]);
  }

  lemma ReleaseNodeLate(s: State, h: HostKey, failAt: nat, forgetOk: InstanceIdent -> bool, slots: seq<Slot>)
    requires Apportioned(s) && TablesOk(s.nets, s.db) && HasHost(s.nets, h) && h in s.db.hosts
    requires ListsHost(slots, s.nets, h) && |slots| < failAt
    ensures ReleaseRows(s, slots, failAt, forgetOk).1
    ensures var s' := RemoveHost(ReleaseRows(s, slots, failAt, forgetOk).0, h, failAt, |slots|).0;
            if LastHost(s, h) && failAt == |slots| + 1 then !Partitioned(s') else Apportioned(s')
  {
    ApportionedKeptByRelease(forgetOk);
    var nets := ReleaseNodeRows((t: State) => Apportioned(t) && TablesOk(t.nets, t.db), s, h, failAt, forgetOk, slots);
    var s1 := ReleaseRows(s, slots, failAt, forgetOk).0;
    ReleaseRowsKeepHosts(s, slots, failAt, forgetOk);
    RemoveHostApportioned(s1.(nets := nets), h, failAt, |slots|);
    TablesWithoutHost(s1.(nets := nets), h, false);
    RemoveHostAlike(s1, nets, h, failAt, |slots|);
  }

  /** A loop over instances that fails, or is not followed by the removal of the node. */
  lemma ReleaseNodeEarly(s: State, h: HostKey, failAt: nat, forgetOk: InstanceIdent -> bool, order: Order,
                         slots: seq<Slot>)
    requires Apportioned(s) && HasHost(s.nets, h) && IsOrder(order) && slots == Filter(order(s.nets), SlotsOn(h))
    requires failAt <= |slots| && slots != []
    ensures !Partitioned(ReleaseNode(s, h, failAt, forgetOk, order).0)
  {
    var _ := ReleaseNodeCases(s, h, failAt, forgetOk, order);
    if failAt < |slots| {
      ReleaseRowsFail(s, slots, failAt, forgetOk);
    }
    assert slots[0] in slots;
    StartedRowsBreak(s, slots, failAt, forgetOk, ReleaseNode(s, h, failAt, forgetOk, order).0);
  }

  /** The partition survives a node's release exactly if no call fails after something has changed. */
  lemma ReleaseNodeApportioned(s: State, h: HostKey, failAt: nat, forgetOk: InstanceIdent -> bool, order: Order)
    requires Apportioned(s) && TablesOk(s.nets, s.db) && IsOrder(order)
    ensures var s' := ReleaseNode(s, h, failAt, forgetOk, order).0;
            if ReleaseFails(s, h, failAt, order) then !Partitioned(s') else Apportioned(s')
  {
    if HasHost(s.nets, h) {
      var slots := ReleaseNodeCases(s, h, failAt, forgetOk, order);
      if slots != [] {
        assert slots[0] in slots;
        HeldOnWrittenHost(s, slots[0]);
      }
      if slots != [] && failAt <= |slots| {
        ReleaseNodeEarly(s, h, failAt, forgetOk, order, slots);
      } else if h in s.db.hosts && |slots| < failAt {
        ReleaseNodeLate(s, h, failAt, forgetOk, slots);
      }
    }
  }
}
