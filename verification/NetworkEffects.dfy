/**
 * What exactly a call that gives addresses answers and changes, in terms of memory, allocator and tables
 * (GetNodeNetworkParams and AllocateInstanceNetwork in src/cm/networkmanager/networkmanager.cpp).
 */
module NetworkEffects {
  import opened Cidr
  import opened Wrappers
  import opened NetPool
  import opened Seqs
  import opened IpSubnets
  import opened NetworkTypes
  import opened NetworkDatabase
  import opened FirewallRules
  import opened PendingConnections
  import opened NetworkSpec
  import opened NetworkInvariant
  import opened NetworkSteps
  import opened NetworkNames

  // Node networks

  /** The answer is what memory holds afterwards, and a known node changes nothing. */
  lemma GetNodeAnswers(s: State, networkID: NetworkID, nodeID: NodeID, e: NodeInput)
    ensures var (s', r) := GetNodeNetworkParams(s, networkID, nodeID, e);
            var h := HostKey(networkID, nodeID);
            && (HasHost(s.nets, h) ==> s' == s && r.Some?)
            && (r.Some? ==>
                  && HasHost(s'.nets, h)
                  && r.value == NetworkParams(networkID, s'.nets[networkID].network.subnet, HostAt(s'.nets, h).ip,
                                              s'.nets[networkID].network.vlanID))
  {
  }

  /** A new node of a network takes the next free address, and its row is written unless the table refuses it. */
  lemma NewNodeExactly(s: State, networkID: NetworkID, nodeID: NodeID, e: NodeInput)
    requires networkID in s.nets && nodeID !in s.nets[networkID].hosts
    ensures var (s', r) := GetNodeNetworkParams(s, networkID, nodeID, e);
            var (h, network) := (HostKey(networkID, nodeID), s.nets[networkID].network);
            if networkID !in s.ip.used || s.ip.used[networkID].ips == [] then s' == s && r.None?
            else
              var (u, ok) := (s.ip.used[networkID], e.addHostOk && h !in s.db.hosts && networkID in s.db.networks);
              var host := Host(nodeID, u.ips[0]);
              && s' == s.(nets := s'.nets, ip := s'.ip, db := s.db.(hosts := s'.db.hosts))
              && s'.nets == s.nets[networkID := NetworkState(network, s.nets[networkID].hosts[nodeID :=
                                                                      HostInstances(host, map[])])]
              && s'.ip == IpState(s.ip.pool, s.ip.used[networkID := Subnetwork(u.subnet, u.ips[1..])])
              && s'.db.hosts == (if ok then s.db.hosts[h := host] else s.db.hosts)
              && r == if ok then Some(NetworkParams(networkID, network.subnet, u.ips[0], network.vlanID)) else None
  {
  }

  /** What the allocator has for a network: its subnet and free addresses, and the pool without that subnet. */
  datatype Offer = Offer(subnet: Subnet, free: seq<Addr>, pool: seq<Subnet>)

  /** The subnet that the network has, or the first of the pool that meets no route. */
  ghost predicate Offers(ip: IpState, networkID: NetworkID, routes: Option<seq<Route>>, offer: Offer) {
    if networkID in ip.used then offer == Offer(ip.used[networkID].subnet, ip.used[networkID].ips, ip.pool)
    else
      && routes.Some?
      && exists i | 0 <= i < |ip.pool| ::
           && !Routed(ip.pool[i], routes.value) && (forall k | 0 <= k < i :: Routed(ip.pool[k], routes.value))
           && offer == Offer(ip.pool[i], HostAddresses(ip.pool[i]), ip.pool[..i] + ip.pool[i + 1..])
  }

  lemma RequestOffers(ip: IpState, networkID: NetworkID, routes: Option<seq<Route>>) returns (offer: Option<Offer>)
    ensures offer.None? <==>
            networkID !in ip.used && (routes.None? || forall b | b in ip.pool :: Routed(b, routes.value))
    ensures offer.Some? ==> Offers(ip, networkID, routes, offer.value)
    ensures RequestSubnet(ip, networkID, routes) ==
            match offer
            case None => None
            case Some(o) => Some((o.subnet, IpState(o.pool, ip.used[networkID := Subnetwork(o.subnet, o.free)])))
  {
    RequestedExactly(ip, networkID, routes);
    if networkID in ip.used {
      var u := ip.used[networkID];
      offer := Some(Offer(u.subnet, u.ips, ip.pool));
      assert ip.used[networkID := Subnetwork(u.subnet, u.ips)] == ip.used;
    } else if RequestSubnet(ip, networkID, routes).Some? {
      var (subnet, ip') := RequestSubnet(ip, networkID, routes).value;
      offer := Some(Offer(subnet, HostAddresses(subnet), ip'.pool));
    } else {
      offer := None;
    }
  }

  /** The allocator after the offer is taken, and after its first address is taken. */
  lemma TakeOffered(ip: IpState, networkID: NetworkID, o: Offer)
    ensures TakeIP(IpState(o.pool, ip.used[networkID := Subnetwork(o.subnet, o.free)]), networkID) ==
            if o.free == [] then None
            else Some((o.free[0], IpState(o.pool, ip.used[networkID := Subnetwork(o.subnet, o.free[1..])])))
  {
    assert o.free != [] ==>
             ip.used[networkID := Subnetwork(o.subnet, o.free)][networkID := Subnetwork(o.subnet, o.free[1..])]
             == ip.used[networkID := Subnetwork(o.subnet, o.free[1..])];
  }

  /**
   * A new network gets the offered subnet, the given VLAN ID and its first node the first address; the rows are
   * written as far as the tables accept them.
   */
  lemma NewNetworkExactly(s: State, networkID: NetworkID, nodeID: NodeID, e: NodeInput) returns (offer: Option<Offer>)
    requires networkID !in s.nets
    ensures offer.None? <==>
            networkID !in s.ip.used && (e.routes.None? || forall b | b in s.ip.pool :: Routed(b, e.routes.value))
    ensures offer.Some? ==> Offers(s.ip, networkID, e.routes, offer.value)
    ensures var (s', r) := GetNodeNetworkParams(s, networkID, nodeID, e);
            if offer.None? || e.vlanID.None? then s' == s && r.None?
            else
              var (o, vlanID) := (offer.value, e.vlanID.value);
              var used := s.ip.used[networkID := Subnetwork(o.subnet, if o.free == [] then [] else o.free[1..])];
              && s'.ip == IpState(o.pool, used)
              && if o.free == [] then s' == s.(ip := s'.ip) && r.None?
                 else
                   var (network, host) := (Network(networkID, o.subnet, vlanID), Host(nodeID, o.free[0]));
                   var networkOk := e.addNetworkOk && networkID !in s.db.networks;
                   var hostOk := networkOk && e.addHostOk && HostKey(networkID, nodeID) !in s.db.hosts;
                   && s' == s.(nets := s'.nets, ip := s'.ip,
                               db := s.db.(networks := s'.db.networks, hosts := s'.db.hosts))
                   && s'.nets == s.nets[networkID := NetworkState(network, map[nodeID := HostInstances(host, map[])])]
                   && s'.db.networks == (if networkOk then s.db.networks[networkID := network] else s.db.networks)
                   && s'.db.hosts ==
                      (if hostOk then s.db.hosts[HostKey(networkID, nodeID) := host] else s.db.hosts)
                   && r == if hostOk then Some(NetworkParams(networkID, o.subnet, o.free[0], vlanID)) else None
  {
    offer := RequestOffers(s.ip, networkID, e.routes);
    if offer.Some? {
      TakeOffered(s.ip, networkID, offer.value);
    }
  }

  /** A network that is created gets, and answers, the first subnet of the pool that meets no route of the kernel. */
  lemma NewNetworkUnrouted(s: State, networkID: NetworkID, nodeID: NodeID, e: NodeInput)
    requires networkID !in s.nets && networkID !in s.ip.used
    ensures var (s', r) := GetNodeNetworkParams(s, networkID, nodeID, e);
            && (r.Some? ==> networkID in s'.nets && r.value.subnet == s'.nets[networkID].network.subnet)
            && (networkID in s'.nets ==>
                  && e.routes.Some?
                  && exists i | 0 <= i < |s.ip.pool| ::
                       && s'.nets[networkID].network.subnet == s.ip.pool[i]
                       && (forall route | route in e.routes.value :: !Meets(s.ip.pool[i], route))
                       && (forall k | 0 <= k < i :: Routed(s.ip.pool[k], e.routes.value)))
  {
    var offer := NewNetworkExactly(s, networkID, nodeID, e);
  }

  // Instance networks

  /** recs are the records of the connections, one by one. */
  ghost predicate RecordsOf(cs: seq<Option<Connection>>, k: Slot, ip: Addr, subnet: Subnet,
                            recs: seq<PendingConnection>) {
    && |recs| == |cs|
    && forall i | 0 <= i < |cs| ::
         && cs[i].Some?
         && recs[i] == PendingConnection(k.ident, k.nodeID, k.networkID, ip, subnet, cs[i].value.itemID,
                                         cs[i].value.port, cs[i].value.protocol)
  }

  /**
   * What the allowed connections of an instance come to: a rule for each that the walk finds one for, and a
   * record for each to an item that no instance is of.
   */
  ghost predicate Answered(nets: Nets, order: Order, k: Slot, ip: Addr, subnet: Subnet,
                           allowed: seq<Option<Connection>>, rules: seq<FirewallRule>, recs: seq<PendingConnection>)
    requires IsOrder(order)
  {
    && RulesOfAll(nets, order(nets), subnet, ip, Filter(allowed, Ruled(nets, order(nets), subnet, ip)), rules)
    && RecordsOf(Filter(allowed, Waiting(nets)), k, ip, subnet, recs)
  }

  ghost predicate WellFormed(allowed: seq<Option<Connection>>) {
    forall c | c in allowed :: c.Some?
  }

  lemma PreparedExactly(nets: Nets, order: Order, k: Slot, ip: Addr, subnet: Subnet, allowed: seq<Option<Connection>>)
    returns (rules: seq<FirewallRule>, recs: seq<PendingConnection>)
    requires IsOrder(order)
    ensures Prepare(nets, order(nets), subnet, ip, allowed, [], []).Some? <==> WellFormed(allowed)
    ensures WellFormed(allowed) ==>
              var prepared := Prepare(nets, order(nets), subnet, ip, allowed, [], []).value;
              && rules == prepared.0 && recs == Records(k, ip, subnet, prepared.1)
              && Answered(nets, order, k, ip, subnet, allowed, rules, recs)
  {
    assert Enumerates(order(nets), nets);
    PrepareClassifies(nets, order(nets), subnet, ip, allowed, [], []);
    rules, recs := [], [];
    if WellFormed(allowed) {
      var newRules, unresolved := PrepareExactly(nets, order(nets), subnet, ip, allowed, [], []);
      rules, recs := newRules, Records(k, ip, subnet, unresolved);
      assert [] + newRules == newRules && [] + unresolved == unresolved;
    }
  }

  /** The wanted names are different and no address carries one of them. */
  ghost predicate NoneTaken(names: HostNames, wanted: seq<string>) {
    NoDup(wanted) && forall a, w | a in names && w in wanted :: w !in names[a]
  }

  lemma NamesGiven(names: HostNames, ip: Addr, wanted: seq<string>)
    ensures var (names', ok) := AddNames(names, ip, wanted);
            && (ok <==> NoneTaken(names, wanted))
            && (ok ==> NamesAt(names', ip) == NamesAt(names, ip) + wanted)
            && (forall a | a != ip :: NamesAt(names', a) == NamesAt(names, a))
  {
    AddNamesIff(names, ip, wanted);
    AddNamesElsewhere(names, ip, wanted);
    AddNamesGives(names, ip, wanted);
  }

  /** Old names of an address are taken away before the new ones are added, and put back on an error. */
  lemma NamesReplaced(names: HostNames, ip: Addr, wanted: seq<string>)
    ensures var (names', ok) := AddNames(names - {ip}, ip, wanted);
            && (ok <==> NoneTaken(names - {ip}, wanted))
            && (ok ==> forall a :: NamesAt(names', a) == if a == ip then wanted else NamesAt(names, a))
            && (forall a :: NamesAt(names'[ip := NamesAt(names, ip)], a) == NamesAt(names, a))
  {
    NamesGiven(names - {ip}, ip, wanted);
    assert [] + wanted == wanted;
    var names' := AddNames(names - {ip}, ip, wanted).0;
    forall a
      ensures a != ip ==> NamesAt(names', a) == NamesAt(names, a)
      ensures NamesAt(names'[ip := NamesAt(names, ip)], a) == NamesAt(names, a)
    {
    }
  }

  /** A requester's records are replaced in memory; in the table as far as its answers go. */
  ghost predicate RecordsReplaced(s: State, s': State, ident: InstanceIdent, recs: seq<PendingConnection>,
                                  answers: Answers) {
    && s'.pending == Filter(s.pending, OtherRequester(ident)) + recs
    && s'.db.pending ==
       (if answers.forgetOk(ident) then Filter(s.db.pending, OtherRequester(ident)) else s.db.pending)
       + Written(recs, answers.addOk)
  }

  /**
   * The instance is there already: malformed text changes nothing. Otherwise its records are replaced, also if
   * the call fails later, and names are either exactly the requested ones or all as before.
   */
  lemma RefreshExactly(s: State, k: Slot, req: Request, env: Env)
    returns (rules: seq<FirewallRule>, recs: seq<PendingConnection>)
    requires Held(s.nets, k) && IsOrder(env.order)
    ensures var (x, subnet) := (At(s.nets, k), s.nets[k.networkID].network.subnet);
            var (s', r) := Allocate(s, k, req, env);
            if !WellFormed(req.allowed) then s' == s && r == Failure
            else
              && Answered(s.nets, env.order, k, x.ip, subnet, req.allowed, rules, recs)
              && s' == s.(names := s'.names, pending := s'.pending, db := s.db.(pending := s'.db.pending))
              && RecordsReplaced(s, s', k.ident, recs, env.answers)
              && if NoneTaken(s.names - {x.ip}, req.hostNames) && env.dnsOk then
                   && r == Refreshed(Allocation(subnet, x.ip, x.dnsServers, rules))
                   && forall a :: NamesAt(s'.names, a) == if a == x.ip then req.hostNames else NamesAt(s.names, a)
                 else r == Failure && forall a :: NamesAt(s'.names, a) == NamesAt(s.names, a)
  {
    var (x, subnet) := (At(s.nets, k), s.nets[k.networkID].network.subnet);
    rules, recs := PreparedExactly(s.nets, env.order, k, x.ip, subnet, req.allowed);
    NamesReplaced(s.names, x.ip, req.hostNames);
  }

  /** x takes the place k. */
  function WithInstanceAt(nets: Nets, k: Slot, x: Instance): Nets
    requires HasHost(nets, HostKey(k.networkID, k.nodeID))
  {
    var ns := nets[k.networkID];
    var node := ns.hosts[k.nodeID];
    var node' := HostInstances(node.info, node.instances[k.ident := x]);
    nets[k.networkID := NetworkState(ns.network, ns.hosts[k.nodeID := node'])]
  }

  ghost predicate RowAccepted(db: Tables, k: Slot, addOk: bool) {
    && addOk && k.ident !in db.instances && k.networkID in db.networks
    && HostKey(k.networkID, k.nodeID) in db.hosts
  }

  ghost predicate Accepted(s: State, k: Slot, req: Request, env: Env) {
    && req.exposedPorts.Some? && WellFormed(req.allowed) && NoneTaken(s.names, req.hostNames)
    && env.dnsOk && RowAccepted(s.db, k, env.addInstanceOk)
  }

  /** s' is s with the instance x at k, its row, its names and its records. */
  ghost predicate Installed(s: State, k: Slot, x: Instance, req: Request, env: Env, recs: seq<PendingConnection>,
                            s': State)
    requires HasHost(s.nets, HostKey(k.networkID, k.nodeID))
  {
    && s' == s.(nets := WithInstanceAt(s.nets, k, x), names := s'.names, pending := s.pending + recs,
                db := s.db.(instances := s.db.instances[k.ident := x],
                            pending := s.db.pending + Written(recs, env.answers.addOk)))
    && forall a ::
         NamesAt(s'.names, a) == if a == x.ip then NamesAt(s.names, a) + req.hostNames else NamesAt(s.names, a)
  }

  /** s' is s with the address given back, without names unless the ports are malformed. */
  ghost predicate RolledBack(s: State, n: NetworkID, ip: Addr, req: Request, s': State) {
    && s' == s.(ip := GiveIP(s.ip, n, ip), names := s'.names)
    && forall a ::
         NamesAt(s'.names, a) == if a == ip && req.exposedPorts.Some? then [] else NamesAt(s.names, a)
  }

  lemma NamesAfterRollback(names: HostNames, ip: Addr, wanted: seq<string>, names': HostNames)
    requires names' == names - {ip} || names' == AddNames(names, ip, wanted).0 - {ip}
    ensures forall a :: NamesAt(names', a) == if a == ip then [] else NamesAt(names, a)
  {
    AddNamesElsewhere(names, ip, wanted);
    assert forall a | a != ip :: NamesAt(AddNames(names, ip, wanted).0 - {ip}, a) == NamesAt(names, a);
  }

  /** An installation stores the instance, its row, its names and its records, or nothing. */
  lemma InstallExactly(s: State, k: Slot, ip: Addr, dnsServers: seq<string>, req: Request, env: Env)
    returns (rules: seq<FirewallRule>, recs: seq<PendingConnection>)
    requires HasHost(s.nets, HostKey(k.networkID, k.nodeID)) && !Held(s.nets, k) && IsOrder(env.order)
    ensures var (s', r) := Install(s, k, ip, dnsServers, req, env);
            var subnet := s.nets[k.networkID].network.subnet;
            if Accepted(s, k, req, env) then
              var x := Instance(k.networkID, k.nodeID, k.ident, ip, req.exposedPorts.value, dnsServers);
              && Installed(s, k, x, req, env, recs, s') && r == Allocated(Allocation(subnet, ip, dnsServers, rules))
              && Answered(s'.nets, env.order, k, ip, subnet, req.allowed, rules, recs)
            else r == Failure && RolledBack(s, k.networkID, ip, req, s')
  {
    rules, recs := [], [];
    NamesGiven(s.names, ip, req.hostNames);
    if req.exposedPorts.Some? {
      var x := Instance(k.networkID, k.nodeID, k.ident, ip, req.exposedPorts.value, dnsServers);
      var subnet := s.nets[k.networkID].network.subnet;
      rules, recs := PreparedExactly(PutInstance(s.nets, k, x), env.order, k, ip, subnet, req.allowed);
    }
    if !Accepted(s, k, req, env) {
      InstallFailed(s, k, ip, dnsServers, req, env);
      if req.exposedPorts.Some? {
        NamesAfterRollback(s.names, ip, req.hostNames, Install(s, k, ip, dnsServers, req, env).0.names);
      }
    }
  }

  /**
   * A new instance takes the next free address of its network and is stored with the DNS server, the ports, the
   * names and the records asked for; an error puts the address behind the free ones.
   */
  lemma AllocateExactly(s: State, k: Slot, req: Request, env: Env)
    returns (rules: seq<FirewallRule>, recs: seq<PendingConnection>)
    requires HasHost(s.nets, HostKey(k.networkID, k.nodeID)) && !Held(s.nets, k) && !Migrates(s, k)
    requires IsOrder(env.order)
    ensures var ((s', r), n, subnet) := (Allocate(s, k, req, env), k.networkID, s.nets[k.networkID].network.subnet);
            if n !in s.ip.used || s.ip.used[n].ips == [] then s' == s && r == Failure
            else
              var (u, ip) := (s.ip.used[n], s.ip.used[n].ips[0]);
              var s1 := s.(ip := IpState(s.ip.pool, s.ip.used[n := Subnetwork(u.subnet, u.ips[1..])]));
              if Accepted(s, k, req, env) then
                var x := Instance(n, k.nodeID, k.ident, ip, req.exposedPorts.value, [env.dnsIP]);
                && Installed(s1, k, x, req, env, recs, s')
                && r == Allocated(Allocation(subnet, ip, [env.dnsIP], rules))
                && Answered(s'.nets, env.order, k, ip, subnet, req.allowed, rules, recs)
              else r == Failure && RolledBack(s1, n, ip, req, s')
  {
    var j := AllocateCases(s, k, req, env);
    rules, recs := [], [];
    if TakeIP(s.ip, k.networkID).Some? {
      var (ip, ips) := TakeIP(s.ip, k.networkID).value;
      rules, recs := InstallExactly(s.(ip := ips), k, ip, [env.dnsIP], req, env);
    }
  }

  /**
   * A move takes the instance from another node of the network, with its row, its names and its records, and
   * gives its address back; then the same address is installed with the DNS servers it had.
   */
  lemma MoveExactly(s: State, k: Slot, req: Request, env: Env)
    returns (j: Slot, rules: seq<FirewallRule>, recs: seq<PendingConnection>)
    requires Migrates(s, k) && IsOrder(env.order)
    ensures Held(s.nets, j) && j == Slot(k.networkID, j.nodeID, k.ident) && j.nodeID != k.nodeID
    ensures var ((s', r), x, n) := (Allocate(s, k, req, env), At(s.nets, j), k.networkID);
            var s1 := s.(ip := GiveIP(s.ip, n, x.ip), names := s.names - {x.ip});
            if !env.removeInstanceOk || k.ident !in s.db.instances then s' == s1 && r == Failure
            else
              var rows := Filter(s.db.pending, OtherRequester(k.ident));
              var s2 := s1.(nets := DropInstance(s.nets, j), pending := Filter(s.pending, OtherRequester(k.ident)),
                            db := s.db.(instances := s.db.instances - {k.ident},
                                        pending := if env.answers.forgetOk(k.ident) then rows else s.db.pending));
              if Accepted(s2, k, req, env) then
                var y := Instance(n, k.nodeID, k.ident, x.ip, req.exposedPorts.value, x.dnsServers);
                var subnet := s.nets[n].network.subnet;
                && Installed(s2, k, y, req, env, recs, s')
                && r == Allocated(Allocation(subnet, x.ip, x.dnsServers, rules))
                && Answered(s'.nets, env.order, k, x.ip, subnet, req.allowed, rules, recs)
              else r == Failure && RolledBack(s2, n, x.ip, req, s')
  {
    var found := AllocateCases(s, k, req, env);
    j, rules, recs := found.value, [], [];
    if DeleteInstance(s.db, k.ident, env.removeInstanceOk).1 {
      var x := At(s.nets, j);
      LookupAfterDrop(s.nets, j);
      rules, recs := InstallExactly(Unplaced(s, k, j, env.answers.forgetOk), k, x.ip, x.dnsServers, req, env);
    }
  }
}
