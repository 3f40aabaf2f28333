/**
 * What a restart repairs: after moves and failed releases every address still lies in its network's subnet,
 * so the start computes each free list anew as what nobody holds.
 */
module NetworkPlacement {
  import opened Cidr
  import opened Wrappers
  import opened NetPool
  import opened Seqs
  import opened IpSubnets
  import opened NetworkTypes
  import opened NetworkDatabase
  import opened FirewallRules
  import opened NetworkSpec
  import opened NetworkInvariant
  import opened NetworkSteps
  import opened NetworkTables
  import opened NetworkAddresses
  import opened NetworkRestart

  /** Free and used addresses are host addresses of the network's subnet, however often they occur. */
  ghost predicate WithinSubnet(ns: NetworkState, u: Subnetwork) {
    && u.subnet == ns.network.subnet
    && (forall a | a in u.ips :: HostAddress(u.subnet, a))
    && (forall o, a | Uses(ns, o, a) :: HostAddress(u.subnet, a))
  }

  ghost predicate AllWithin(nets: Nets, used: map<NetworkID, Subnetwork>) {
    used.Keys == nets.Keys && forall n | n in nets :: WithinSubnet(nets[n], used[n])
  }

  ghost predicate Placed(s: State) {
    Conserved(PrivatePool(), s.ip) && AllWithin(s.nets, s.ip.used)
  }

  lemma OneWithin(nets: Nets, used: map<NetworkID, Subnetwork>, n: NetworkID, ns': NetworkState, u': Subnetwork)
    requires AllWithin(nets, used) && WithinSubnet(ns', u')
    ensures AllWithin(nets[n := ns'], used[n := u'])
  {
  }

  lemma MemoryWithin(nets: Nets, used: map<NetworkID, Subnetwork>, n: NetworkID, ns': NetworkState)
    requires AllWithin(nets, used) && n in nets && ns'.network == nets[n].network
    requires forall o, a | Uses(ns', o, a) :: Uses(nets[n], o, a) || HostAddress(used[n].subnet, a)
    ensures AllWithin(nets[n := ns'], used)
  {
    assert used[n := used[n]] == used;
    OneWithin(nets, used, n, ns', used[n]);
  }

  // The allocator

  lemma TakePlaced(s: State, n: NetworkID)
    requires Placed(s) && TakeIP(s.ip, n).Some?
    ensures var (ip, ips) := TakeIP(s.ip, n).value;
            Placed(s.(ip := ips)) && n in s.nets && HostAddress(s.nets[n].network.subnet, ip)
  {
    TakeIPConserves(PrivatePool(), s.ip, n);
    assert s.nets[n := s.nets[n]] == s.nets;
    OneWithin(s.nets, s.ip.used, n, s.nets[n], s.ip.used[n].(ips := s.ip.used[n].ips[1..]));
  }

  lemma GivePlaced(s: State, n: NetworkID, ip: Addr)
    requires Placed(s) && n in s.nets && HostAddress(s.nets[n].network.subnet, ip)
    ensures Placed(s.(ip := GiveIP(s.ip, n, ip)))
  {
    GiveIPConserves(PrivatePool(), s.ip, n, ip);
    assert s.nets[n := s.nets[n]] == s.nets;
    OneWithin(s.nets, s.ip.used, n, s.nets[n], s.ip.used[n].(ips := s.ip.used[n].ips + [ip]));
  }

  lemma HeldWithin(s: State, k: Slot)
    requires Placed(s) && Held(s.nets, k)
    ensures HostAddress(s.nets[k.networkID].network.subnet, At(s.nets, k).ip)
  {
    HeldIsUsed(s.nets, k);
    assert WithinSubnet(s.nets[k.networkID], s.ip.used[k.networkID]);
  }

  /** Names, records and tables do not matter. */
  lemma PlacedAlike(s: State, s': State)
    requires Placed(s) && s'.nets == s.nets && s'.ip == s.ip
    ensures Placed(s')
  {
  }

  // Instances

  lemma PutPlaced(s: State, k: Slot, x: Instance)
    requires Placed(s) && HasHost(s.nets, HostKey(k.networkID, k.nodeID)) && !Held(s.nets, k)
    requires HostAddress(s.nets[k.networkID].network.subnet, x.ip)
    ensures Placed(s.(nets := PutInstance(s.nets, k, x)))
  {
    UsesAfterPut(s.nets, k, x);
    MemoryWithin(s.nets, s.ip.used, k.networkID, PutInstance(s.nets, k, x)[k.networkID]);
  }

  lemma DropPlaced(s: State, k: Slot)
    requires Placed(s) && Held(s.nets, k)
    ensures Placed(s.(nets := DropInstance(s.nets, k)))
  {
    UsesAfterDrop(s.nets, k);
    MemoryWithin(s.nets, s.ip.used, k.networkID, DropInstance(s.nets, k)[k.networkID]);
  }

  lemma InstallPlaced(s: State, k: Slot, ip: Addr, dnsServers: seq<string>, req: Request, env: Env)
    requires Placed(s) && IsOrder(env.order)
    requires HasHost(s.nets, HostKey(k.networkID, k.nodeID)) && !Held(s.nets, k)
    requires HostAddress(s.nets[k.networkID].network.subnet, ip)
    ensures Placed(Install(s, k, ip, dnsServers, req, env).0)
  {
    var s' := Install(s, k, ip, dnsServers, req, env).0;
    if Install(s, k, ip, dnsServers, req, env).1.Failure? {
      InstallFailed(s, k, ip, dnsServers, req, env);
      GivePlaced(s, k.networkID, ip);
      PlacedAlike(s.(ip := GiveIP(s.ip, k.networkID, ip)), s');
    } else {
      var x, unresolved := InstallCases(s, k, ip, dnsServers, req, env);
      PutPlaced(s, k, x);
      PlacedAlike(s.(nets := PutInstance(s.nets, k, x)), s');
    }
  }

  /** A moved address lies in the same subnet, free and held as it may be. */
  lemma MigratePlaced(s: State, k: Slot, j: Slot, req: Request, env: Env)
    requires Placed(s) && IsOrder(env.order) && Held(s.nets, j) && Matches(j, k, Elsewhere)
    requires HasHost(s.nets, HostKey(k.networkID, k.nodeID)) && !Held(s.nets, k)
    ensures Placed(Migrate(s, k, j, req, env).0)
  {
    var (x, s1) := (At(s.nets, j), Unplaced(s, k, j, env.answers.forgetOk));
    HeldWithin(s, j);
    GivePlaced(s, k.networkID, x.ip);
    MigrateCases(s, k, j, req, env);
    if DeleteInstance(s.db, k.ident, env.removeInstanceOk).1 {
      DropPlaced(s.(ip := GiveIP(s.ip, k.networkID, x.ip)), j);
      LookupAfterDrop(s.nets, j);
      PlacedAlike(s.(ip := GiveIP(s.ip, k.networkID, x.ip), nets := DropInstance(s.nets, j)), s1);
      InstallPlaced(s1, k, x.ip, x.dnsServers, req, env);
    } else {
      PlacedAlike(s.(ip := GiveIP(s.ip, k.networkID, x.ip)), Migrate(s, k, j, req, env).0);
    }
  }

  lemma AllocatePlaced(s: State, k: Slot, req: Request, env: Env)
    requires Placed(s) && IsOrder(env.order)
    ensures Placed(Allocate(s, k, req, env).0)
  {
    var j := AllocateCases(s, k, req, env);
    if HasHost(s.nets, HostKey(k.networkID, k.nodeID)) {
      if Held(s.nets, k) {
        var unresolved := RefreshCases(s, k, req, env);
        PlacedAlike(s, Refresh(s, k, req, env).0);
      } else if j.Some? {
        MigratePlaced(s, k, j.value, req, env);
      } else if TakeIP(s.ip, k.networkID).Some? {
        var (ip, ips) := TakeIP(s.ip, k.networkID).value;
        TakePlaced(s, k.networkID);
        InstallPlaced(s.(ip := ips), k, ip, [env.dnsIP], req, env);
      }
    }
  }

  lemma ReleaseRowPlaced(s: State, k: Slot, removeOk: bool, forgetOk: InstanceIdent -> bool)
    requires Placed(s) && Held(s.nets, k)
    ensures Placed(ReleaseRow(s, k, removeOk, forgetOk).0)
  {
    HeldWithin(s, k);
    GivePlaced(s, k.networkID, At(s.nets, k).ip);
    PlacedAlike(s.(ip := GiveIP(s.ip, k.networkID, At(s.nets, k).ip)), ReleaseRow(s, k, removeOk, forgetOk).0);
  }

  lemma ReleasePlaced(s: State, ident: InstanceIdent, nodeID: NodeID, removeOk: bool,
                      forgetOk: InstanceIdent -> bool, order: Order)
    requires Placed(s) && IsOrder(order)
    ensures Placed(ReleaseInstance(s, ident, nodeID, removeOk, forgetOk, order).0)
  {
    var k := ReleaseCases(s, ident, nodeID, removeOk, forgetOk, order);
    if k.Some? {
      ReleaseRowPlaced(s, k.value, removeOk, forgetOk);
      var (s1, ok) := ReleaseRow(s, k.value, removeOk, forgetOk);
      if ok {
        DropPlaced(s1, k.value);
      }
    }
  }

  // Node networks

  lemma AddedHostPlaced(s: State, networkID: NetworkID, host: Host)
    requires Placed(s) && networkID in s.nets && !HasHost(s.nets, HostKey(networkID, host.nodeID))
    requires HostAddress(s.nets[networkID].network.subnet, host.ip)
    ensures Placed(s.(nets := PutHost(s.nets, networkID, host)))
  {
    UsesAfterPutHost(s.nets, networkID, host);
    MemoryWithin(s.nets, s.ip.used, networkID, PutHost(s.nets, networkID, host)[networkID]);
  }

  lemma FirstHostWithin(network: Network, host: Host, u: Subnetwork)
    requires u.subnet == network.subnet && HostAddress(u.subnet, host.ip)
    requires forall a | a in u.ips :: HostAddress(u.subnet, a)
    ensures WithinSubnet(FirstHost(network, host), u)
  {
    assert forall o, a :: Uses(FirstHost(network, host), o, a) ==> a == host.ip;
  }

  lemma RequestedUsed(ip: IpState, n: NetworkID, routes: Option<seq<Route>>)
    requires n !in ip.used && RequestSubnet(ip, n, routes).Some?
    ensures var (subnet, ips) := RequestSubnet(ip, n, routes).value;
            ips.used == ip.used[n := Subnetwork(subnet, HostAddresses(subnet))]
  {
  }

  lemma FirstAddressUsed(ip: IpState, n: NetworkID, routes: Option<seq<Route>>)
    requires n !in ip.used && RequestSubnet(ip, n, routes).Some?
    requires TakeIP(RequestSubnet(ip, n, routes).value.1, n).Some?
    ensures var (subnet, ips) := RequestSubnet(ip, n, routes).value;
            var (first, ips') := TakeIP(ips, n).value;
            && HostAddresses(subnet) != [] && first == HostAddresses(subnet)[0]
            && ips'.used == ip.used[n := Subnetwork(subnet, HostAddresses(subnet)[1..])]
  {
    var (subnet, ips) := RequestSubnet(ip, n, routes).value;
    RequestedUsed(ip, n, routes);
    assert ip.used[n := ips.used[n]][n := Subnetwork(subnet, HostAddresses(subnet)[1..])] ==
           ip.used[n := Subnetwork(subnet, HostAddresses(subnet)[1..])];
  }

  /** A requested subnet with its first address taken. */
  lemma FirstAddressTaken(ip: IpState, n: NetworkID, routes: Option<seq<Route>>)
    requires Conserved(PrivatePool(), ip) && n !in ip.used && RequestSubnet(ip, n, routes).Some?
    requires TakeIP(RequestSubnet(ip, n, routes).value.1, n).Some?
    ensures var (subnet, ips) := RequestSubnet(ip, n, routes).value;
            var ips' := TakeIP(ips, n).value.1;
            && Conserved(PrivatePool(), ips')
            && ips'.used == ip.used[n := Subnetwork(subnet, HostAddresses(subnet)[1..])]
            && HostAddresses(subnet) != [] && TakeIP(ips, n).value.0 == HostAddresses(subnet)[0]
  {
    FirstAddressUsed(ip, n, routes);
    RequestConserves(PrivatePool(), ip, n, routes);
    TakeIPConserves(PrivatePool(), RequestSubnet(ip, n, routes).value.1, n);
  }

  lemma AddedNetworkPlaced(s: State, network: Network, host: Host, routes: Option<seq<Route>>)
    requires Placed(s) && network.networkID !in s.nets && RequestSubnet(s.ip, network.networkID, routes).Some?
    requires var (subnet, ips) := RequestSubnet(s.ip, network.networkID, routes).value;
             && subnet == network.subnet && TakeIP(ips, network.networkID).Some?
             && TakeIP(ips, network.networkID).value.0 == host.ip
    ensures var ips := RequestSubnet(s.ip, network.networkID, routes).value.1;
            Placed(s.(ip := TakeIP(ips, network.networkID).value.1,
                      nets := s.nets[network.networkID := FirstHost(network, host)]))
  {
    var n := network.networkID;
    FirstAddressTaken(s.ip, n, routes);
    HostAddressesComplete(network.subnet);
    var u := Subnetwork(network.subnet, HostAddresses(network.subnet)[1..]);
    FirstHostWithin(network, host, u);
    OneWithin(s.nets, s.ip.used, n, FirstHost(network, host), u);
  }

  lemma GetNodePlaced(s: State, networkID: NetworkID, nodeID: NodeID, e: NodeInput)
    requires Placed(s)
    ensures Placed(GetNodeNetworkParams(s, networkID, nodeID, e).0)
  {
    var s' := GetNodeNetworkParams(s, networkID, nodeID, e).0;
    if !WritesRow(s, networkID, nodeID, e) {
      NoRowNoChange(s, networkID, nodeID, e);
    } else {
      var host, network := GetNodeCases(s, networkID, nodeID, e);
      if networkID in s.nets {
        TakePlaced(s, networkID);
        AddedHostPlaced(s.(ip := s'.ip), networkID, host);
        PlacedAlike(s.(ip := s'.ip, nets := s'.nets), s');
      } else {
        AddedNetworkPlaced(s, network, host, e.routes);
        PlacedAlike(s.(ip := s'.ip, nets := s'.nets), s');
      }
    }
  }

  // Node release

  lemma {:induction false} ReleaseRowsPlaced(s: State, slots: seq<Slot>, failAt: nat, forgetOk: InstanceIdent -> bool)
    requires Placed(s) && forall k | k in slots :: Held(s.nets, k)
    ensures Placed(ReleaseRows(s, slots, failAt, forgetOk).0)
    decreases slots
  {
    if slots != [] {
      assert slots[0] in slots;
      ReleaseRowPlaced(s, slots[0], failAt != 0, forgetOk);
      var (s1, ok) := ReleaseRow(s, slots[0], failAt != 0, forgetOk);
      if ok {
        ReleaseRowsPlaced(s1, slots[1..], failAt - 1, forgetOk);
      }
    }
  }

  lemma WithoutHostPlaced(s: State, h: HostKey)
    requires Placed(s) && HasHost(s.nets, h)
    ensures Placed(WithoutHost(s, h))
  {
    var ns' := DropHost(s.nets, h)[h.networkID];
    assert forall o, a :: Uses(ns', o, a) ==> Uses(s.nets[h.networkID], o, a);
    MemoryWithin(s.nets, s.ip.used, h.networkID, ns');
  }

  /** The release gives the network's subnet back and cannot remove its row. */
  ghost predicate StopsAtNetwork(s: State, h: HostKey, failAt: nat, order: Order) {
    && HasHost(s.nets, h) && h in s.db.hosts && LastHost(s, h)
    && failAt == |Filter(order(s.nets), SlotsOn(h))| + 1
  }

  lemma RemovedNetworkPlaced(s: State, networkID: NetworkID, storageOk: bool)
    requires Placed(s) && networkID in s.nets && RemoveNetwork(s, networkID, storageOk).1 == storageOk
    ensures Placed(RemoveNetwork(s, networkID, storageOk).0) <==> storageOk
  {
    ReleaseConserves(PrivatePool(), s.ip, networkID);
    if !storageOk {
      var s' := RemoveNetwork(s, networkID, storageOk).0;
      assert networkID in s'.nets && networkID !in s'.ip.used;
    }
  }

  lemma RemovedHostPlaced(s: State, h: HostKey, failAt: nat, forgetOk: InstanceIdent -> bool, slots: seq<Slot>)
    requires Placed(s) && TablesOk(s.nets, s.db) && HasHost(s.nets, h) && h in s.db.hosts
    requires ListsHost(slots, s.nets, h) && |slots| < failAt
    requires Placed(ReleaseRows(s, slots, failAt, forgetOk).0)
    ensures Placed(RemoveHost(ReleaseRows(s, slots, failAt, forgetOk).0, h, failAt, |slots|).0) <==>
            !(LastHost(s, h) && failAt == |slots| + 1)
  {
    var s1 := ReleaseRows(s, slots, failAt, forgetOk).0;
    TablesReleaseNodeLate(s, h, failAt, forgetOk, slots, false);
    RemoveHostCases(s1, h, failAt, |slots|);
    WithoutHostPlaced(s1, h);
    if LastHost(s, h) {
      RemovedNetworkPlaced(WithoutHost(s1, h), h.networkID, failAt != |slots| + 1);
    }
  }

  /** Of a release that does not lose track only one that stops at the network's row misplaces anything. */
  lemma ReleaseNodePlaced(s: State, h: HostKey, failAt: nat, forgetOk: InstanceIdent -> bool, order: Order)
    requires Placed(s) && TablesOk(s.nets, s.db) && IsOrder(order)
    ensures Placed(ReleaseNode(s, h, failAt, forgetOk, order).0) <==> !StopsAtNetwork(s, h, failAt, order)
  {
    if HasHost(s.nets, h) {
      var slots := ReleaseNodeCases(s, h, failAt, forgetOk, order);
      ReleaseRowsPlaced(s, slots, failAt, forgetOk);
      var (s1, ok) := ReleaseRows(s, slots, failAt, forgetOk);
      if ok {
        ReleaseRowsKeepHosts(s, slots, failAt, forgetOk);
        if failAt < |slots| {
          ReleaseRowsFail(s, slots, failAt, forgetOk);
        } else if failAt > |slots| && h in s.db.hosts {
          RemovedHostPlaced(s, h, failAt, forgetOk, slots);
        }
      } else if failAt > |slots| && h in s.db.hosts {
        TablesReleaseNodeLate(s, h, failAt, forgetOk, slots, false);
      }
    }
  }

  // Restart

  lemma PlacedSubnetsApart(s: State, nets': Nets)
    requires Placed(s) && Restriction(s.nets, s.db, nets')
    ensures SubnetsApart(PrivatePool(), nets')
  {
    forall n | n in nets'
      ensures nets'[n].network.subnet in PrivatePool()
      ensures forall o, a | Uses(nets'[n], o, a) :: HostAddress(nets'[n].network.subnet, a)
    {
      assert WithinSubnet(s.nets[n], s.ip.used[n]) && s.ip.used[n].subnet == nets'[n].network.subnet;
      forall o, a | Uses(nets'[n], o, a)
        ensures HostAddress(nets'[n].network.subnet, a)
      {
        RestrictedUses(s.nets, s.db, nets', n, o, a);
      }
    }
    forall n, m | n in nets' && m in nets' && n != m
      ensures nets'[n].network.subnet != nets'[m].network.subnet
    {
      assert WithinSubnet(s.nets[n], s.ip.used[n]) && WithinSubnet(s.nets[m], s.ip.used[m]);
      assert s.ip.used[n].subnet != s.ip.used[m].subnet;
    }
  }

  lemma RecoveredPlaced(nets: Nets, ip: IpState)
    requires Recovered(PrivatePool(), nets, ip, nets.Keys) && SubnetsApart(PrivatePool(), nets)
    ensures AllWithin(nets, ip.used)
  {
    forall n | n in nets
      ensures WithinSubnet(nets[n], ip.used[n])
    {
      forall a | a in ip.used[n].ips
        ensures HostAddress(nets[n].network.subnet, a)
      {
        FreeAre(nets[n], a);
      }
    }
  }

  /**
   * The repair: the start makes each free list exactly the addresses that nobody holds, and with that
   * partitions the addresses again, unless one has been given to a second owner in the meantime.
   */
  lemma RestartRepairs(s: State, order: seq<NetworkID>)
    requires Placed(s) && TablesOk(s.nets, s.db) && ListsNetworks(order, s.db)
    ensures var s' := Init(s.db, order);
            && Recovered(PrivatePool(), s'.nets, s'.ip, s'.nets.Keys) && Placed(s')
            && (Partitioned(s') <==> OneOwnerEach(s'.nets))
  {
    var s' := Init(s.db, order);
    LoadRestricts(s.nets, s.db);
    PlacedSubnetsApart(s, s'.nets);
    NetPoolsDisjoint();
    RecoveredFromFull(PrivatePool(), s'.nets, order);
    RecoveredPlaced(s'.nets, s'.ip);
    StartIff(s.db, order);
  }

  lemma FirstStartPlaced()
    ensures Placed(FirstStart())
  {
    FirstStartInv();
  }
}
