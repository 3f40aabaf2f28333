/**
 * The network manager (src/cm/networkmanager/networkmanager.cpp). Each method is one locked section, or
 * an undisturbed sequence of them, and computes the function of the same step in NetworkSpec.
 */
module NetworkManagers {
  import opened Cidr
  import opened Wrappers
  import opened NetPool
  import opened Seqs
  import opened IpSubnets
  import opened NetworkTypes
  import opened NetworkDatabase
  import opened FirewallRules
  import opened PendingConnections
  import opened NetworkSpec

  /** How the search for the instance on another node ends; Stopped is a storage exception. */
  datatype Migration = NotFound | Stopped | Moved(ip: Addr, dnsServers: seq<string>)

  /** How the reads of the tables at start end. */
  datatype Reads = Reads(
    networksOk: bool, hostsOk: NetworkID -> bool, instancesOk: HostKey -> bool, pendingOk: bool)

  ghost predicate NetworkReadable(db: Tables, readable: Reads, networkID: NetworkID) {
    readable.hostsOk(networkID) && forall h | h in db.hosts && h.networkID == networkID :: readable.instancesOk(h)
  }

  /** Every network in memory is as the tables have it. */
  ghost predicate OnlyLoaded(nets: Nets, db: Tables) {
    forall n | n in nets :: n in db.networks && nets[n] == LoadNetwork(db, n)
  }

  class NetworkManager {
    const storage: Database
    const ipSubnet: IpSubnet
    var networkStates: Nets
    var hosts: HostNames
    var pendingConnections: seq<PendingConnection>
    ghost var dropped: map<NetworkID, set<Addr>>

    ghost function Model(): State
      reads this, storage, ipSubnet
    {
      State(networkStates, hosts, pendingConnections, ipSubnet.Model(), storage.Model(), dropped)
    }

    constructor (storage: Database, ipSubnet: IpSubnet)
      ensures this.storage == storage && this.ipSubnet == ipSubnet
      ensures networkStates == map[] && hosts == map[] && pendingConnections == [] && dropped == map[]
    {
      this.storage, this.ipSubnet := storage, ipSubnet;
      networkStates, hosts, pendingConnections, dropped := map[], map[], [], map[];
    }

    // Start

    /** The first read that fails ends the call. */
    method ReadNetwork(network: Network, networkID: NetworkID, readable: Reads) returns (ok: bool, ns: NetworkState)
      requires networkID in storage.networks && network == storage.networks[networkID]
      ensures ok <==> NetworkReadable(storage.Model(), readable, networkID)
      ensures ok ==> ns == LoadNetwork(storage.Model(), networkID)
    {
      ghost var db := storage.Model();
      var hostInstances: map<NodeID, HostInstances> := map[];
      ns := NetworkState(network, hostInstances);
      var rows;
      ok, rows := storage.GetHosts(networkID, readable.hostsOk(networkID));
      if !ok {
        return;
      }
      var left := rows.Keys;
      while left != {}
        invariant left <= rows.Keys
        invariant forall d | d in rows && d !in left :: readable.instancesOk(HostKey(networkID, d))
        invariant hostInstances == map d | d in rows && d !in left :: LoadHost(db, HostKey(networkID, d))
        decreases left
      {
        var d :| d in left;
        var instances;
        ok, instances := storage.GetInstances(HostKey(networkID, d), readable.instancesOk(HostKey(networkID, d)));
        if !ok {
          assert HostKey(networkID, d) in db.hosts;
          return;
        }
        hostInstances := hostInstances[d := HostInstances(rows[d], instances)];
        left := left - {d};
      }
      ns := NetworkState(network, hostInstances);
      assert hostInstances == LoadNetwork(db, networkID).hosts;
      forall h | h in db.hosts && h.networkID == networkID
        ensures readable.instancesOk(h)
      {
        assert h.nodeID in rows && h == HostKey(networkID, h.nodeID);
      }
      return true, ns;
    }

    method ReadNetworks(readable: Reads) returns (ok: bool)
      requires networkStates == map[]
      modifies this`networkStates
      ensures ok <==>
              readable.networksOk && forall n | n in storage.networks :: NetworkReadable(storage.Model(), readable, n)
      ensures ok ==> networkStates == Load(storage.Model())
      ensures OnlyLoaded(networkStates, storage.Model())
    {
      var rows;
      ok, rows := storage.GetNetworks(readable.networksOk);
      if !ok {
        return;
      }
      var left := rows.Keys;
      while left != {}
        invariant left <= rows.Keys
        invariant networkStates.Keys == rows.Keys - left
        invariant OnlyLoaded(networkStates, storage.Model())
        invariant forall n | n in networkStates :: NetworkReadable(storage.Model(), readable, n)
        decreases left
      {
        var n :| n in left;
        var ns;
        ok, ns := ReadNetwork(rows[n], n, readable);
        if !ok {
          return;
        }
        networkStates := networkStates[n := ns];
        left := left - {n};
      }
      assert networkStates.Keys == Load(storage.Model()).Keys;
      return true;
    }

    ghost function HostAddressesOf(h: HostInstances): set<Addr> {
      {h.info.ip} + set i | i in h.instances :: h.instances[i].ip
    }

    method ListHostAddresses(h: HostInstances) returns (ips: seq<Addr>)
      ensures forall a :: a in ips <==> a in HostAddressesOf(h)
    {
      ips := [h.info.ip];
      var left := h.instances.Keys;
      while left != {}
        invariant left <= h.instances.Keys
        invariant forall a :: a in ips <==>
          a == h.info.ip || exists i | i in h.instances && i !in left :: h.instances[i].ip == a
        decreases left
      {
        var i :| i in left;
        ips := ips + [h.instances[i].ip];
        left := left - {i};
      }
    }

    method ListAddresses(ns: NetworkState) returns (ips: seq<Addr>)
      ensures Elements(ips) == AddressesIn(ns)
    {
      ips := [];
      var left := ns.hosts.Keys;
      while left != {}
        invariant left <= ns.hosts.Keys
        invariant forall a :: a in ips <==>
          exists d | d in ns.hosts && d !in left :: a in HostAddressesOf(ns.hosts[d])
        decreases left
      {
        var d :| d in left;
        var more := ListHostAddresses(ns.hosts[d]);
        ghost var before, ips0 := left, ips;
        ips := ips + more;
        left := left - {d};
        forall a
          ensures a in ips <==> exists c | c in ns.hosts && c !in left :: a in HostAddressesOf(ns.hosts[c])
        {
          assert a in ips <==> a in ips0 || a in more;
          assert a in more <==> a in HostAddressesOf(ns.hosts[d]);
          if c :| c in ns.hosts && c !in before && a in HostAddressesOf(ns.hosts[c]) {
            assert c !in left;
          }
        }
      }
      forall a
        ensures a in Elements(ips) <==> a in AddressesIn(ns)
      {
        if a in AddressesIn(ns) {
          if d :| d in ns.hosts && ns.hosts[d].info.ip == a {
            assert a in HostAddressesOf(ns.hosts[d]);
          } else {
            var d, i :| d in ns.hosts && i in ns.hosts[d].instances && ns.hosts[d].instances[i].ip == a;
            assert a in HostAddressesOf(ns.hosts[d]);
          }
        }
      }
    }

    method RemoveExistedNetworks(networks: seq<NetworkID>)
      requires forall n | n in networks :: n in networkStates
      modifies ipSubnet
      ensures ipSubnet.Model() == RecoverAll(old(ipSubnet.Model()), networkStates, networks, {})
    {
      var ips: seq<Addr> := [];
      assert Elements(ips) == {};
      for i := 0 to |networks|
        invariant RecoverAll(old(ipSubnet.Model()), networkStates, networks, {}) ==
                  RecoverAll(ipSubnet.Model(), networkStates, networks[i..], Elements(ips))
      {
        assert networks[i..][0] == networks[i] && networks[i..][1..] == networks[i + 1..];
        var ns := networkStates[networks[i]];
        var used := ListAddresses(ns);
        assert Elements(ips + used) == Elements(ips) + AddressesIn(ns);
        ips := ips + used;
        ipSubnet.RemoveAllocatedSubnet(networks[i], ns.network.subnet, ips);
      }
    }

    /**
     * networks is the order in which the map of networks is walked. A start that fails leaves networks that it
     * has read in full, and nothing else.
     */
    method Init(networks: seq<NetworkID>, readable: Reads) returns (ok: bool)
      requires networkStates == map[] && hosts == map[] && pendingConnections == [] && dropped == map[]
      requires ipSubnet.Model() == IpState([], map[])
      requires forall n :: n in networks <==> n in storage.networks
      modifies this, ipSubnet
      ensures ok <==>
              && readable.networksOk && readable.pendingOk
              && forall n | n in storage.networks :: NetworkReadable(storage.Model(), readable, n)
      ensures ok ==> Model() == NetworkSpec.Init(old(storage.Model()), networks)
      ensures !ok ==> OnlyLoaded(networkStates, old(storage.Model())) && hosts == map[] && pendingConnections == []
    {
      ipSubnet.Init();
      ok := ReadNetworks(readable);
      if !ok {
        return;
      }
      assert networkStates == Load(storage.Model()) && ipSubnet.Model() == IpState(PrivatePool(), map[]);
      RemoveExistedNetworks(networks);
      assert ipSubnet.Model() == NetworkSpec.Init(storage.Model(), networks).ip;
      var rows;
      ok, rows := storage.GetAllPendingConnections(readable.pendingOk);
      if ok {
        pendingConnections := rows;
      }
    }

    // Node networks

    method AddFirstHost(networkID: NetworkID, nodeID: NodeID, e: NodeInput) returns (result: Option<NetworkParams>)
      requires ValidRoutes(e.routes) && networkID !in networkStates
      modifies this, storage, ipSubnet
      ensures (Model(), result) == NewNetwork(old(Model()), networkID, nodeID, e)
    {
      if e.vlanID.None? {
        return None;
      }
      var subnet := ipSubnet.GetAvailableSubnet(networkID, e.routes);
      if subnet.None? {
        return None;
      }
      var ip := ipSubnet.GetAvailableIP(networkID);
      if ip.None? {
        return None;
      }
      var network, host := Network(networkID, subnet.value, e.vlanID.value), Host(nodeID, ip.value);
      networkStates := networkStates[networkID := FirstHost(network, host)];
      var ok := storage.AddNetwork(network, e.addNetworkOk);
      if !ok {
        return None;
      }
      ok := storage.AddHost(networkID, host, e.addHostOk);
      return if ok then Some(NetworkParams(networkID, subnet.value, ip.value, e.vlanID.value)) else None;
    }

    method GetNodeNetworkParams(networkID: NetworkID, nodeID: NodeID, e: NodeInput)
      returns (result: Option<NetworkParams>)
      requires ValidRoutes(e.routes)
      modifies this, storage, ipSubnet
      ensures (Model(), result) == NetworkSpec.GetNodeNetworkParams(old(Model()), networkID, nodeID, e)
      ensures old(networkID in networkStates && nodeID in networkStates[networkID].hosts) ==>
                result.Some? && Model() == old(Model())
      ensures result.Some? ==>
                && networkID in networkStates && nodeID in networkStates[networkID].hosts
                && var ns := networkStates[networkID];
                   result.value == NetworkParams(networkID, ns.network.subnet, ns.hosts[nodeID].info.ip,
                                                 ns.network.vlanID)
    {
      if networkID in networkStates {
        var network := networkStates[networkID].network;
        if nodeID in networkStates[networkID].hosts {
          var ip := networkStates[networkID].hosts[nodeID].info.ip;
          return Some(NetworkParams(networkID, network.subnet, ip, network.vlanID));
        }
        var ip := ipSubnet.GetAvailableIP(networkID);
        if ip.None? {
          return None;
        }
        var host := Host(nodeID, ip.value);
        networkStates := PutHost(networkStates, networkID, host);
        var ok := storage.AddHost(networkID, host, e.addHostOk);
        return if ok then Some(NetworkParams(networkID, network.subnet, ip.value, network.vlanID)) else None;
      }
      result := AddFirstHost(networkID, nodeID, e);
    }

    // Pending connections

    /** Erases the records of a requester from memory and from the database. */
    method RemoveRequester(ident: InstanceIdent, forgetOk: InstanceIdent -> bool)
      modifies this`pendingConnections, storage
      ensures Model() == NetworkSpec.ForgetRequester(old(Model()), ident, forgetOk)
    {
      var all, kept := pendingConnections, [];
      for i := 0 to |all|
        invariant Model() == old(Model())
        invariant kept == Filter(all[..i], OtherRequester(ident))
      {
        FilterNext(all, i, OtherRequester(ident));
        if all[i].requester != ident {
          kept := kept + [all[i]];
        }
      }
      assert all[..|all|] == all;
      pendingConnections := kept;
      var _ := storage.RemovePendingConnections(ident, forgetOk(ident));
    }

    method StorePendingConnections(k: Slot, ip: Addr, subnet: Subnet, unresolved: seq<Connection>, addOk: nat -> bool)
      modifies this`pendingConnections, storage
      ensures Model() == StorePending(old(Model()), k, ip, subnet, unresolved, addOk)
    {
      for i := 0 to |unresolved|
        invariant Model() == StorePending(old(Model()), k, ip, subnet, unresolved[..i], addOk)
      {
        var pending := Record(k, ip, subnet, unresolved[i]);
        assert Records(k, ip, subnet, unresolved[..i + 1]) == Records(k, ip, subnet, unresolved[..i]) + [pending];
        assert Records(k, ip, subnet, unresolved[..i + 1])[..i] == Records(k, ip, subnet, unresolved[..i]);
        pendingConnections := pendingConnections + [pending];
        var _ := storage.AddPendingConnection(pending, addOk(i));
      }
      assert unresolved[..|unresolved|] == unresolved;
    }

    method IsConfirmed(nodeID: NodeID, report: seq<InstanceReport>, order: Order, p: PendingConnection)
      returns (confirmed: bool)
      requires IsOrder(order)
      ensures forall k | k in order(networkStates) :: Held(networkStates, k)
      ensures confirmed <==> Confirmed(networkStates, order(networkStates), nodeID, report, p)
    {
      assert Enumerates(order(networkStates), networkStates);
      if p.nodeID != nodeID {
        return false;
      }
      var r := FindReport(report, p.requester);
      if r.None? {
        return false;
      }
      var rule, _ := GetInstanceRule(networkStates, order(networkStates), QueryOf(p));
      return rule.Some? && rule.value in r.value.rules;
    }

    method CleanConfirmedPendingConnections(nodeID: NodeID, report: seq<InstanceReport>, answers: Answers, order: Order)
      requires IsOrder(order)
      modifies this`pendingConnections, storage
      ensures var l := CleanedLists(old(Model()), nodeID, report, answers, order);
              Model() == old(Model()).(pending := l.memory, db := old(storage.Model()).(pending := l.rows))
    {
      assert Enumerates(order(networkStates), networkStates);
      var ok, dbPending := storage.GetAllPendingConnections(answers.readOk);
      if !ok {
        return;
      }
      ghost var l0 := Lists(pendingConnections, storage.pending);
      for i := 0 to |dbPending|
        invariant networkStates == old(networkStates)
        invariant storage.Model() == old(storage.Model()).(pending := storage.pending)
        invariant Model() == old(Model()).(pending := pendingConnections, db := storage.Model())
        invariant Clean(networkStates, order(networkStates), nodeID, report, dbPending, 0, answers.removeOk, l0) ==
                  Clean(networkStates, order(networkStates), nodeID, report, dbPending, i, answers.removeOk,
                        Lists(pendingConnections, storage.pending))
      {
        var confirmed := IsConfirmed(nodeID, report, order, dbPending[i]);
        if confirmed {
          var _ := storage.RemovePendingConnection(dbPending[i], answers.removeOk(i));
          pendingConnections := RemoveFirst(pendingConnections, dbPending[i]);
        }
      }
    }

    method ReloadPendingConnections(nodeID: NodeID, reloadOk: bool)
      modifies this`pendingConnections
      ensures pendingConnections ==
              if reloadOk then Reload(nodeID, storage.pending, old(pendingConnections)) else old(pendingConnections)
    {
      var ok, rows := storage.GetAllPendingConnections(reloadOk);
      if !ok {
        return;
      }
      for i := 0 to |rows|
        invariant Reload(nodeID, rows, old(pendingConnections)) == Reload(nodeID, rows[i..], pendingConnections)
      {
        assert rows[i..][0] == rows[i] && rows[i..][1..] == rows[i + 1..];
        var pending := rows[i];
        if pending.nodeID != nodeID {
          continue;
        }
        if pending !in pendingConnections {
          pendingConnections := pendingConnections + [pending];
        }
      }
    }

    method ResolvePendingConnections(itemID: string, order: Order) returns (updates: Updates)
      requires IsOrder(order)
      modifies this`pendingConnections
      ensures (Model(), updates) == Resolve(old(Model()), itemID, order)
    {
      assert Enumerates(order(networkStates), networkStates);
      var all, kept := pendingConnections, [];
      updates := map[];
      for i := 0 to |all|
        invariant kept == Filter(all[..i], Unresolvable(networkStates, order(networkStates), itemID))
        invariant Collect(networkStates, order(networkStates), itemID, all, map[]) ==
                  Collect(networkStates, order(networkStates), itemID, all[i..], updates)
      {
        FilterNext(all, i, Unresolvable(networkStates, order(networkStates), itemID));
        assert all[i..][0] == all[i] && all[i..][1..] == all[i + 1..];
        var rule: Option<FirewallRule> := None;
        if all[i].target == itemID {
          var instanceFound;
          rule, instanceFound := GetInstanceRule(networkStates, order(networkStates), QueryOf(all[i]));
        }
        if rule.Some? {
          updates := AddRule(updates, all[i], rule.value);
        } else {
          kept := kept + [all[i]];
        }
      }
      assert all[..|all|] == all;
      pendingConnections := kept;
    }

    // Instance networks

    method IsHostExist(name: string) returns (exist: bool)
      ensures exist <==> NameTaken(hosts, name)
    {
      var left := hosts.Keys;
      while left != {}
        invariant left <= hosts.Keys
        invariant forall a | a in hosts && a !in left :: name !in hosts[a]
        decreases left
      {
        var a :| a in left;
        if name in hosts[a] {
          return true;
        }
        left := left - {a};
      }
      return false;
    }

    method AddHosts(ip: Addr, wanted: seq<string>) returns (ok: bool)
      modifies this`hosts
      ensures (hosts, ok) == AddNames(old(hosts), ip, wanted)
    {
      for i := 0 to |wanted|
        invariant AddNames(old(hosts), ip, wanted) == AddNames(hosts, ip, wanted[i..])
      {
        assert wanted[i..][1..] == wanted[i + 1..];
        var taken := IsHostExist(wanted[i]);
        if taken {
          return false;
        }
        hosts := hosts[ip := NamesAt(hosts, ip) + [wanted[i]]];
      }
      return true;
    }

    method RefreshInstance(k: Slot, req: Request, env: Env) returns (outcome: Outcome)
      requires Held(networkStates, k) && IsOrder(env.order)
      modifies this, storage
      ensures (Model(), outcome) == Refresh(old(Model()), k, req, env)
    {
      var x, subnet := At(networkStates, k), networkStates[k.networkID].network.subnet;
      assert Enumerates(env.order(networkStates), networkStates);
      var ok, rules, unresolved :=
        PrepareFirewallRules(networkStates, env.order(networkStates), subnet, x.ip, req.allowed);
      if !ok {
        return Failure;
      }
      RemoveRequester(k.ident, env.answers.forgetOk);
      StorePendingConnections(k, x.ip, subnet, unresolved, env.answers.addOk);
      var savedHosts := NamesAt(hosts, x.ip);
      hosts := hosts - {x.ip};
      ok := AddHosts(x.ip, req.hostNames);
      if !ok || !env.dnsOk {
        hosts := hosts[x.ip := savedHosts];
        return Failure;
      }
      return Refreshed(Allocation(subnet, x.ip, x.dnsServers, rules));
    }

    method MigrateInstanceFromOtherNode(k: Slot, env: Env) returns (r: Migration)
      requires IsOrder(env.order)
      modifies this, storage, ipSubnet
      ensures match FindSlot(env.order(old(networkStates)), k, Elsewhere)
              case None => r.NotFound? && Model() == old(Model())
              case Some(j) =>
                assert Enumerates(env.order(old(networkStates)), old(networkStates));
                var s, x := old(Model()), At(old(networkStates), j);
                var s1 := s.(ip := GiveIP(s.ip, k.networkID, x.ip), names := s.names - {x.ip});
                var (db, ok) := DeleteInstance(s.db, k.ident, env.removeInstanceOk);
                if ok then
                  r == Moved(x.ip, x.dnsServers) &&
                  Model() == NetworkSpec.ForgetRequester(s1.(db := db, nets := DropInstance(s1.nets, j)), k.ident,
                                                         env.answers.forgetOk)
                else r.Stopped? && Model() == s1.(db := db)
    {
      assert Enumerates(env.order(networkStates), networkStates);
      var found := FindSlot(env.order(networkStates), k, Elsewhere);
      if found.None? {
        return NotFound;
      }
      var x := At(networkStates, found.value);
      ipSubnet.ReleaseIPToSubnet(k.networkID, x.ip);
      hosts := hosts - {x.ip};
      var ok := storage.RemoveNetworkInstance(k.ident, env.removeInstanceOk);
      if !ok {
        return Stopped;
      }
      networkStates := DropInstance(networkStates, found.value);
      RemoveRequester(k.ident, env.answers.forgetOk);
      return Moved(x.ip, x.dnsServers);
    }

    method RegisterInstance(x: Instance, subnet: Subnet, req: Request, env: Env)
      returns (ok: bool, rules: seq<FirewallRule>, unresolved: seq<Connection>)
      requires IsOrder(env.order)
      modifies this`hosts, storage
      ensures var (names, done) := Register(old(Model()), x, subnet, req, env);
              var db := if done.Some? then done.value.db else old(storage.Model());
              && Model() == old(Model()).(names := names, db := db)
              && ok == done.Some?
              && (ok ==> rules == done.value.rules && unresolved == done.value.unresolved)
    {
      assert Enumerates(env.order(networkStates), networkStates);
      ok, rules, unresolved := PrepareFirewallRules(networkStates, env.order(networkStates), subnet, x.ip, req.allowed);
      if !ok {
        return;
      }
      ok := AddHosts(x.ip, req.hostNames);
      if !ok || !env.dnsOk {
        ok := false;
        return;
      }
      ok := storage.AddInstance(x, env.addInstanceOk);
    }

    method InstallInstance(k: Slot, ip: Addr, dnsServers: seq<string>, req: Request, env: Env)
      returns (outcome: Outcome)
      requires HasHost(networkStates, HostKey(k.networkID, k.nodeID)) && IsOrder(env.order)
      modifies this, storage, ipSubnet
      ensures (Model(), outcome) == Install(old(Model()), k, ip, dnsServers, req, env)
    {
      if req.exposedPorts.None? {
        ipSubnet.ReleaseIPToSubnet(k.networkID, ip);
        return Failure;
      }
      var x := Instance(k.networkID, k.nodeID, k.ident, ip, req.exposedPorts.value, dnsServers);
      var subnet := networkStates[k.networkID].network.subnet;
      networkStates := PutInstance(networkStates, k, x);
      var ok, rules, unresolved := RegisterInstance(x, subnet, req, env);
      if !ok {
        // The deferred rollbacks.
        networkStates := DropInstance(networkStates, k);
        hosts := hosts - {ip};
        ipSubnet.ReleaseIPToSubnet(k.networkID, ip);
        return Failure;
      }
      StorePendingConnections(k, ip, subnet, unresolved, env.answers.addOk);
      return Allocated(Allocation(subnet, ip, dnsServers, rules));
    }

    method AllocateLocked(k: Slot, req: Request, env: Env) returns (outcome: Outcome)
      requires IsOrder(env.order)
      modifies this, storage, ipSubnet
      ensures (Model(), outcome) == Allocate(old(Model()), k, req, env)
    {
      if !HasHost(networkStates, HostKey(k.networkID, k.nodeID)) {
        return Failure;
      }
      if Held(networkStates, k) {
        outcome := RefreshInstance(k, req, env);
        return;
      }
      var migration := MigrateInstanceFromOtherNode(k, env);
      if migration.Stopped? {
        return Failure;
      }
      if migration.Moved? {
        outcome := InstallInstance(k, migration.ip, migration.dnsServers, req, env);
        return;
      }
      var ip := ipSubnet.GetAvailableIP(k.networkID);
      if ip.None? {
        return Failure;
      }
      outcome := InstallInstance(k, ip.value, [env.dnsIP], req, env);
    }

    method AllocateInstanceNetwork(k: Slot, req: Request, env: Env) returns (outcome: Outcome, updates: Updates)
      requires IsOrder(env.order)
      modifies this, storage, ipSubnet
      ensures var (s, r) := Allocate(old(Model()), k, req, env);
              && outcome == r
              && (Model(), updates) == if r.Allocated? then Resolve(s, k.ident.itemID, env.order) else (s, map[])
    {
      outcome := AllocateLocked(k, req, env);
      updates := map[];
      if outcome.Allocated? {
        updates := ResolvePendingConnections(k.ident.itemID, env.order);
      }
    }

    /** What releasing an instance and releasing its node have in common. */
    method ReleaseInstanceRow(k: Slot, removeOk: bool, forgetOk: InstanceIdent -> bool) returns (ok: bool)
      requires Held(networkStates, k)
      modifies this`hosts, this`pendingConnections, storage, ipSubnet
      ensures (Model(), ok) == ReleaseRow(old(Model()), k, removeOk, forgetOk)
    {
      var ip := At(networkStates, k).ip;
      ipSubnet.ReleaseIPToSubnet(k.networkID, ip);
      hosts := hosts - {ip};
      ok := storage.RemoveNetworkInstance(k.ident, removeOk);
      if ok {
        RemoveRequester(k.ident, forgetOk);
      }
    }

    /** An unknown instance is no error; a known one needs its row removed and DNS restarted. */
    method ReleaseInstanceNetwork(ident: InstanceIdent, nodeID: NodeID, removeOk: bool,
                                  forgetOk: InstanceIdent -> bool, dnsOk: bool, order: Order) returns (ok: bool)
      requires IsOrder(order)
      modifies this, storage, ipSubnet
      ensures var (s, removed) := ReleaseInstance(old(Model()), ident, nodeID, removeOk, forgetOk, order);
              var found := FindSlot(order(old(networkStates)), Slot("", nodeID, ident), OnNode);
              Model() == s && (ok <==> removed && (dnsOk || found.None?))
    {
      assert Enumerates(order(networkStates), networkStates);
      var found := FindSlot(order(networkStates), Slot("", nodeID, ident), OnNode);
      if found.None? {
        return true;
      }
      var k := found.value;
      ok := ReleaseInstanceRow(k, removeOk, forgetOk);
      if ok {
        networkStates := DropInstance(networkStates, k);
        ok := dnsOk;
      }
    }

    // Node release

    method ReleaseInstanceRows(slots: seq<Slot>, failAt: nat, forgetOk: InstanceIdent -> bool) returns (ok: bool)
      requires forall k | k in slots :: Held(networkStates, k)
      modifies this`hosts, this`pendingConnections, storage, ipSubnet
      ensures (Model(), ok) == ReleaseRows(old(Model()), slots, failAt, forgetOk)
    {
      for i := 0 to |slots|
        invariant networkStates == old(networkStates) && i <= failAt
        invariant ReleaseRows(old(Model()), slots, failAt, forgetOk) ==
                  ReleaseRows(Model(), slots[i..], failAt - i, forgetOk)
      {
        assert slots[i..][0] == slots[i] && slots[i..][1..] == slots[i + 1..];
        ok := ReleaseInstanceRow(slots[i], failAt != i, forgetOk);
        if !ok {
          return;
        }
      }
      return true;
    }

    method ReleaseNodeNetwork(h: HostKey, failAt: nat, forgetOk: InstanceIdent -> bool, dnsOk: bool, order: Order)
      returns (ok: bool)
      requires IsOrder(order)
      modifies this, storage, ipSubnet
      ensures var (s, removed) := ReleaseNode(old(Model()), h, failAt, forgetOk, order);
              Model() == s && (ok <==> removed && dnsOk)
    {
      if !HasHost(networkStates, h) {
        return false;
      }
      assert Enumerates(order(networkStates), networkStates);
      FilteredHeld(order(networkStates), h, networkStates);
      var slots := Filter(order(networkStates), SlotsOn(h));
      ok := ReleaseInstanceRows(slots, failAt, forgetOk);
      if !ok {
        return;
      }
      ok := storage.RemoveHost(h.networkID, h.nodeID, failAt != |slots|);
      if !ok {
        return;
      }
      dropped := dropped[h.networkID := DroppedIn(dropped, h.networkID) + {HostAt(networkStates, h).ip}];
      networkStates := DropHost(networkStates, h);
      if networkStates[h.networkID].hosts == map[] {
        ipSubnet.ReleaseIPNetPool(h.networkID);
        ok := storage.RemoveNetwork(h.networkID, failAt != |slots| + 1);
        if !ok {
          return;
        }
        networkStates := networkStates - {h.networkID};
        dropped := dropped - {h.networkID};
      }
      ok := dnsOk;
    }

    // Reconciliation

    method ResolveEach(slots: seq<Slot>, order: Order) returns (pushed: seq<Updates>)
      requires IsOrder(order)
      modifies this`pendingConnections
      ensures (Model(), pushed) == ResolveAll(old(Model()), slots, order, [])
    {
      pushed := [];
      for i := 0 to |slots|
        invariant ResolveAll(old(Model()), slots, order, []) == ResolveAll(Model(), slots[i..], order, pushed)
      {
        assert slots[i..][1..] == slots[i + 1..];
        var updates := ResolvePendingConnections(slots[i].ident.itemID, order);
        pushed := pushed + [updates];
      }
    }

    /** A release that fails is logged and the reconciliation goes on. */
    method SyncNetworkState(nodeID: NodeID, report: seq<InstanceReport>, removeOk: InstanceIdent -> bool,
                            answers: Answers, dnsOk: bool, order: Order) returns (pushed: seq<Updates>)
      requires IsOrder(order)
      modifies this, storage, ipSubnet
      ensures (Model(), pushed) == Sync(old(Model()), nodeID, report, removeOk, answers, order)
    {
      var instancesToRelease := Filter(order(networkStates), StaleSlots(nodeID, report));
      for i := 0 to |instancesToRelease|
        invariant ReleaseAll(old(Model()), instancesToRelease, nodeID, removeOk, answers.forgetOk, order) ==
                  ReleaseAll(Model(), instancesToRelease[i..], nodeID, removeOk, answers.forgetOk, order)
      {
        assert instancesToRelease[i..][1..] == instancesToRelease[i + 1..];
        var ident := instancesToRelease[i].ident;
        var _ := ReleaseInstanceNetwork(ident, nodeID, removeOk(ident), answers.forgetOk, dnsOk, order);
      }
      CleanConfirmedPendingConnections(nodeID, report, answers, order);
      ReloadPendingConnections(nodeID, answers.reloadOk);
      var allInstances := order(networkStates);
      pushed := ResolveEach(allInstances, order);
    }
  }
}
