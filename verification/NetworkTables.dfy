/**
 * How the tables of networks, nodes and instances follow memory, in runs that move instances and meet
 * storage failures as well. Nothing here depends on the addresses or on the pending records.
 */
module NetworkTables {
  import opened Cidr
  import opened Wrappers
  import opened NetPool
  import opened Seqs
  import opened IpSubnets
  import opened NetworkTypes
  import opened NetworkDatabase
  import opened FirewallRules
  import opened NetworkSpec
  import opened NetworkInvariant
  import opened NetworkSteps
  import opened NetworkNames

  // Rows of networks and nodes. An update keeps them complete if they were, unless it is said otherwise.

  /** Rows of networks and nodes do not depend on instances. */
  lemma RowsSame(nets: Nets, nets': Nets, db: Tables, db': Tables)
    requires RowsWithin(nets, db) && SameNetworks(nets, nets') && SameHosts(nets, nets')
    requires db'.networks == db.networks && db'.hosts == db.hosts
    requires forall i | i in db'.instances ::
               HostKey(db'.instances[i].networkID, db'.instances[i].nodeID) in db.hosts
    ensures RowsWithin(nets', db') && (RowsComplete(nets', db') <==> RowsComplete(nets, db))
  {
  }

  lemma InstancesAfterPut(nets: Nets, nets': Nets, rows: map<InstanceIdent, Instance>, k: Slot, x: Instance)
    requires MirrorInstances(nets, rows) && OneMore(nets, nets', k) && At(nets', k) == x && SlotOf(x) == k
    requires k.ident !in rows
    ensures MirrorInstances(nets', rows[k.ident := x])
  {
  }

  lemma TablesAfterPut(nets: Nets, db: Tables, k: Slot, x: Instance)
    requires TablesOk(nets, db) && HasHost(nets, HostKey(k.networkID, k.nodeID)) && !Held(nets, k)
    requires SlotOf(x) == k && InsertInstance(db, x, true).1
    ensures var (nets', db') := (PutInstance(nets, k, x), InsertInstance(db, x, true).0);
            TablesOk(nets', db') && (RowsComplete(nets', db') <==> RowsComplete(nets, db))
  {
    LookupAfterPut(nets, k, x);
    RowsSame(nets, PutInstance(nets, k, x), db, InsertInstance(db, x, true).0);
    InstancesAfterPut(nets, PutInstance(nets, k, x), db.instances, k, x);
  }

  lemma InstancesAfterDrop(nets: Nets, nets': Nets, rows: map<InstanceIdent, Instance>, k: Slot)
    requires MirrorInstances(nets, rows) && Held(nets, k) && OneMore(nets', nets, k) && !Held(nets', k)
    ensures MirrorInstances(nets', rows - {k.ident})
  {
    forall j | Held(nets', j)
      ensures j.ident != k.ident
    {
      assert Held(nets, j) && SlotOf(At(nets, j)) == j && SlotOf(At(nets, k)) == k;
    }
  }

  lemma TablesAfterDrop(nets: Nets, db: Tables, k: Slot)
    requires TablesOk(nets, db) && Held(nets, k)
    ensures DeleteInstance(db, k.ident, true).1
    ensures var (nets', db') := (DropInstance(nets, k), DeleteInstance(db, k.ident, true).0);
            TablesOk(nets', db') && (RowsComplete(nets', db') <==> RowsComplete(nets, db))
  {
    LookupAfterDrop(nets, k);
    RowsSame(nets, DropInstance(nets, k), db, DeleteInstance(db, k.ident, true).0);
    InstancesAfterDrop(nets, DropInstance(nets, k), db.instances, k);
  }

  lemma InstancesSame(nets: Nets, nets': Nets, rows: map<InstanceIdent, Instance>)
    requires MirrorInstances(nets, rows) && SameInstances(nets, nets')
    ensures MirrorInstances(nets', rows)
  {
  }

  lemma RowsAfterPutHost(nets: Nets, db: Tables, networkID: NetworkID, host: Host, storageOk: bool)
    requires RowsWithin(nets, db) && networkID in nets && host.nodeID !in nets[networkID].hosts
    ensures var (nets', db') := (PutHost(nets, networkID, host), InsertHost(db, networkID, host, storageOk).0);
            RowsWithin(nets', db') && (RowsComplete(nets', db') <==> RowsComplete(nets, db) && storageOk)
  {
    var h := HostKey(networkID, host.nodeID);
    assert !HasHost(nets, h);
    LookupAfterPutHost(nets, networkID, host);
    assert HasHost(PutHost(nets, networkID, host), h);
  }

  /** A node whose row is refused or fails is missing from the table, and nothing else. */
  lemma TablesAfterPutHost(nets: Nets, db: Tables, networkID: NetworkID, host: Host, storageOk: bool)
    requires TablesOk(nets, db) && networkID in nets && host.nodeID !in nets[networkID].hosts
    ensures var (nets', (db', ok)) := (PutHost(nets, networkID, host), InsertHost(db, networkID, host, storageOk));
            && (ok <==> storageOk && networkID in db.networks)
            && TablesOk(nets', db') && (RowsComplete(nets', db') <==> RowsComplete(nets, db) && storageOk)
  {
    assert !HasHost(nets, HostKey(networkID, host.nodeID));
    LookupAfterPutHost(nets, networkID, host);
    InstancesSame(nets, PutHost(nets, networkID, host), db.instances);
    RowsAfterPutHost(nets, db, networkID, host, storageOk);
  }

  lemma RowsAfterNewNetwork(nets: Nets, db: Tables, network: Network, host: Host, db': Tables)
    requires RowsWithin(nets, db) && network.networkID !in nets
    requires var (n, h) := (network.networkID, HostKey(network.networkID, host.nodeID));
             && db'.instances == db.instances && n !in db.networks && h !in db.hosts
             && (db'.networks == db.networks || db'.networks == db.networks[n := network])
             && (db'.hosts == db.hosts || (n in db'.networks && db'.hosts == db.hosts[h := host]))
    ensures var nets' := nets[network.networkID := FirstHost(network, host)];
            && RowsWithin(nets', db')
            && (RowsComplete(nets', db') <==>
                RowsComplete(nets, db) && HostKey(network.networkID, host.nodeID) in db'.hosts)
  {
    var h := HostKey(network.networkID, host.nodeID);
    var nets' := nets[network.networkID := FirstHost(network, host)];
    LookupAfterNewNetwork(nets, network, host);
    assert HasHost(nets', h) && !HasHost(nets, h);
    if RowsComplete(nets', db') {
      forall n | n in nets
        ensures n in db.networks
      {
        assert n in nets';
      }
      forall g | HasHost(nets, g)
        ensures g in db.hosts
      {
        assert HasHost(nets', g) && g != h;
      }
    }
  }

  lemma NewRows(nets: Nets, db: Tables, network: Network, host: Host, e: NodeInput)
    requires RowsWithin(nets, db) && network.networkID !in nets
    ensures var (n, (db', ok)) := (network.networkID, WriteNetwork(db, network, host, e));
            var h := HostKey(n, host.nodeID);
            && (ok <==> e.addNetworkOk && e.addHostOk) && db'.instances == db.instances
            && db'.networks == (if e.addNetworkOk then db.networks[n := network] else db.networks)
            && db'.hosts == (if ok then db.hosts[h := host] else db.hosts)
            && n !in db.networks && h !in db.hosts
  {
    assert !HasHost(nets, HostKey(network.networkID, host.nodeID));
  }

  lemma TablesAfterNewNetwork(nets: Nets, db: Tables, network: Network, host: Host, e: NodeInput)
    requires TablesOk(nets, db) && network.networkID !in nets
    ensures var (nets', (db', ok)) :=
              (nets[network.networkID := FirstHost(network, host)], WriteNetwork(db, network, host, e));
            && (ok <==> e.addNetworkOk && e.addHostOk)
            && TablesOk(nets', db') && (RowsComplete(nets', db') <==> RowsComplete(nets, db) && ok)
  {
    var nets' := nets[network.networkID := FirstHost(network, host)];
    LookupAfterNewNetwork(nets, network, host);
    InstancesSame(nets, nets', db.instances);
    NewRows(nets, db, network, host, e);
    RowsAfterNewNetwork(nets, db, network, host, WriteNetwork(db, network, host, e).0);
  }

  lemma TablesAfterDropHost(nets: Nets, db: Tables, h: HostKey)
    requires TablesOk(nets, db) && HasHost(nets, h) && nets[h.networkID].hosts[h.nodeID].instances == map[]
    requires h in db.hosts
    ensures DeleteHost(db, h, true).1
    ensures var (nets', db') := (DropHost(nets, h), DeleteHost(db, h, true).0);
            TablesOk(nets', db') && (RowsComplete(nets', db') <==> RowsComplete(nets, db))
  {
    LookupAfterDropHost(nets, h);
    InstancesSame(nets, DropHost(nets, h), db.instances);
    forall i | i in db.instances
      ensures HostKey(db.instances[i].networkID, db.instances[i].nodeID) != h
    {
      assert Held(nets, SlotOf(db.instances[i]));
    }
  }

  lemma TablesAfterDropNetwork(nets: Nets, db: Tables, networkID: NetworkID)
    requires TablesOk(nets, db) && networkID in nets && nets[networkID].hosts == map[] && networkID in db.networks
    ensures DeleteNetwork(db, networkID, true).1
    ensures var (nets', db') := (nets - {networkID}, DeleteNetwork(db, networkID, true).0);
            TablesOk(nets', db') && (RowsComplete(nets', db') <==> RowsComplete(nets, db))
  {
    var nets' := nets - {networkID};
    LookupAfterDropNetwork(nets, networkID);
    InstancesSame(nets, nets', db.instances);
    assert forall h | h in db.hosts :: HasHost(nets, h);
    assert forall i | i in db.instances :: HostKey(db.instances[i].networkID, db.instances[i].nodeID) in db.hosts;
    var db' := DeleteNetwork(db, networkID, true).0;
    assert forall n :: n in nets <==> n in nets' || n == networkID;
    assert forall n :: n in db.networks <==> n in db'.networks || n == networkID;
  }

  // Allocation

  /** The rows of networks and nodes are as complete as before. */
  ghost predicate AsComplete(s: State, s': State) {
    RowsComplete(s'.nets, s'.db) <==> RowsComplete(s.nets, s.db)
  }

  /** The pending records do not matter. */
  lemma TablesIgnoreRecords(s: State, s': State)
    requires s'.nets == s.nets && s'.db == s.db.(pending := s'.db.pending) && TablesOk(s.nets, s.db)
    ensures TablesOk(s'.nets, s'.db) && AsComplete(s, s')
  {
  }

  lemma TablesInstall(s: State, k: Slot, ip: Addr, dnsServers: seq<string>, req: Request, env: Env)
    requires TablesOk(s.nets, s.db) && IsOrder(env.order)
    requires HasHost(s.nets, HostKey(k.networkID, k.nodeID)) && !Held(s.nets, k)
    ensures var s' := Install(s, k, ip, dnsServers, req, env).0; TablesOk(s'.nets, s'.db) && AsComplete(s, s')
  {
    var s' := Install(s, k, ip, dnsServers, req, env).0;
    if Install(s, k, ip, dnsServers, req, env).1.Failure? {
      InstallFailed(s, k, ip, dnsServers, req, env);
    } else {
      var x, unresolved := InstallCases(s, k, ip, dnsServers, req, env);
      TablesAfterPut(s.nets, s.db, k, x);
      TablesIgnoreRecords(s.(nets := PutInstance(s.nets, k, x), db := InsertInstance(s.db, x, true).0), s');
    }
  }

  lemma RefreshKeepsRows(s: State, k: Slot, req: Request, env: Env)
    requires Held(s.nets, k) && IsOrder(env.order)
    ensures var s' := Refresh(s, k, req, env).0; s'.nets == s.nets && s'.db == s.db.(pending := s'.db.pending)
  {
    var unresolved := RefreshCases(s, k, req, env);
  }

  /** The instance leaves its slot and its row. */
  lemma TablesDropped(s: State, k: Slot, s': State)
    requires TablesOk(s.nets, s.db) && Held(s.nets, k)
    requires s'.nets == DropInstance(s.nets, k)
    requires s'.db == DeleteInstance(s.db, k.ident, true).0.(pending := s'.db.pending)
    ensures DeleteInstance(s.db, k.ident, true).1 && TablesOk(s'.nets, s'.db) && AsComplete(s, s')
  {
    TablesAfterDrop(s.nets, s.db, k);
    TablesIgnoreRecords(s.(nets := s'.nets, db := DeleteInstance(s.db, k.ident, true).0), s');
  }

  lemma TablesMigrate(s: State, k: Slot, j: Slot, req: Request, env: Env)
    requires TablesOk(s.nets, s.db) && IsOrder(env.order)
    requires HasHost(s.nets, HostKey(k.networkID, k.nodeID)) && !Held(s.nets, k)
    requires Held(s.nets, j) && Matches(j, k, Elsewhere)
    ensures var s' := Migrate(s, k, j, req, env).0; TablesOk(s'.nets, s'.db) && AsComplete(s, s')
  {
    var (x, s1) := (At(s.nets, j), Unplaced(s, k, j, env.answers.forgetOk));
    TablesDropped(s, j, s1);
    LookupAfterDrop(s.nets, j);
    MigrateCases(s, k, j, req, env);
    if env.removeInstanceOk {
      TablesInstall(s1, k, x.ip, x.dnsServers, req, env);
    }
  }

  lemma TablesAllocate(s: State, k: Slot, req: Request, env: Env)
    requires TablesOk(s.nets, s.db) && IsOrder(env.order)
    ensures var s' := Allocate(s, k, req, env).0; TablesOk(s'.nets, s'.db) && AsComplete(s, s')
  {
    var j := AllocateCases(s, k, req, env);
    if HasHost(s.nets, HostKey(k.networkID, k.nodeID)) {
      if Held(s.nets, k) {
        RefreshKeepsRows(s, k, req, env);
        TablesIgnoreRecords(s, Refresh(s, k, req, env).0);
      } else if j.Some? {
        TablesMigrate(s, k, j.value, req, env);
      } else if TakeIP(s.ip, k.networkID).Some? {
        var (ip, ips) := TakeIP(s.ip, k.networkID).value;
        TablesInstall(s.(ip := ips), k, ip, [env.dnsIP], req, env);
      }
    }
  }

  /** What a new instance needs, besides an address. */
  ghost predicate Acceptable(s: State, k: Slot, req: Request, env: Env) {
    && req.exposedPorts.Some? && (forall c | c in req.allowed :: c.Some?)
    && NoDup(req.hostNames) && (forall w | w in req.hostNames :: !NameTaken(s.names, w))
    && env.dnsOk && env.addInstanceOk
    && HostKey(k.networkID, k.nodeID) in s.db.hosts && (forall j | Held(s.nets, j) :: j.ident != k.ident)
  }

  lemma PrepareIff(nets: Nets, order: Order, subnet: Subnet, ip: Addr, allowed: seq<Option<Connection>>)
    requires IsOrder(order)
    ensures Enumerates(order(nets), nets)
    ensures Prepare(nets, order(nets), subnet, ip, allowed, [], []).Some? <==> forall c | c in allowed :: c.Some?
  {
    assert Enumerates(order(nets), nets);
    PrepareClassifies(nets, order(nets), subnet, ip, allowed, [], []);
  }

  /** The row of a new instance is accepted exactly when its node has one and no other instance has its key. */
  lemma InsertIff(nets: Nets, db: Tables, x: Instance, storageOk: bool)
    requires TablesOk(nets, db)
    ensures InsertInstance(db, x, storageOk).1 <==>
            storageOk && HostKey(x.networkID, x.nodeID) in db.hosts && forall j | Held(nets, j) :: j.ident != x.ident
  {
    if x.ident in db.instances {
      assert Held(nets, SlotOf(db.instances[x.ident]));
    }
  }

  lemma InstallIff(s: State, k: Slot, ip: Addr, dnsServers: seq<string>, req: Request, env: Env)
    requires TablesOk(s.nets, s.db) && HasHost(s.nets, HostKey(k.networkID, k.nodeID)) && IsOrder(env.order)
    ensures Install(s, k, ip, dnsServers, req, env).1.Allocated? <==> Acceptable(s, k, req, env)
  {
    if req.exposedPorts.Some? {
      var x := Instance(k.networkID, k.nodeID, k.ident, ip, req.exposedPorts.value, dnsServers);
      PrepareIff(PutInstance(s.nets, k, x), env.order, s.nets[k.networkID].network.subnet, ip, req.allowed);
      AddNamesIff(s.names, ip, req.hostNames);
      InsertIff(s.nets, s.db, x, env.addInstanceOk);
    }
  }

  /** A new instance that is held nowhere in its network is allocated in exactly these cases. */
  lemma AllocatedIff(s: State, k: Slot, req: Request, env: Env)
    requires TablesOk(s.nets, s.db) && IsOrder(env.order) && !Held(s.nets, k)
    requires forall j | Held(s.nets, j) :: !Matches(j, k, Elsewhere)
    ensures Allocate(s, k, req, env).1.Allocated? <==>
            && HasHost(s.nets, HostKey(k.networkID, k.nodeID)) && TakeIP(s.ip, k.networkID).Some?
            && Acceptable(s, k, req, env)
  {
    var j := AllocateCases(s, k, req, env);
    if HasHost(s.nets, HostKey(k.networkID, k.nodeID)) && TakeIP(s.ip, k.networkID).Some? {
      var (ip, ips) := TakeIP(s.ip, k.networkID).value;
      InstallIff(s.(ip := ips), k, ip, [env.dnsIP], req, env);
    }
  }

  /** A refresh succeeds exactly if its text is well formed, DNS works and the names are free for the address. */
  lemma RefreshedIff(s: State, k: Slot, req: Request, env: Env)
    requires IsOrder(env.order) && Held(s.nets, k)
    ensures Allocate(s, k, req, env).1.Refreshed? <==>
            && (forall c | c in req.allowed :: c.Some?) && env.dnsOk
            && NoDup(req.hostNames)
            && (forall w | w in req.hostNames :: !NameTaken(s.names - {At(s.nets, k).ip}, w))
  {
    var ip := At(s.nets, k).ip;
    PrepareIff(s.nets, env.order, s.nets[k.networkID].network.subnet, ip, req.allowed);
    AddNamesIff(s.names - {ip}, ip, req.hostNames);
  }

  /** A move succeeds exactly if the old row can be removed and the new node takes what is left. */
  lemma MovedIff(s: State, k: Slot, j: Slot, req: Request, env: Env)
    requires TablesOk(s.nets, s.db) && IsOrder(env.order)
    requires HasHost(s.nets, HostKey(k.networkID, k.nodeID)) && Held(s.nets, j) && Matches(j, k, Elsewhere)
    ensures Allocate(s, k, req, env).1.Allocated? <==>
            env.removeInstanceOk && Acceptable(Unplaced(s, k, j, env.answers.forgetOk), k, req, env)
  {
    if Held(s.nets, k) {
      HeldOnce(s.nets, s.db.instances, j, k);
    }
    var i := AllocateCases(s, k, req, env);
    HeldOnce(s.nets, s.db.instances, i.value, j);
    var (x, s1) := (At(s.nets, j), Unplaced(s, k, j, env.answers.forgetOk));
    TablesDropped(s, j, s1);
    MigrateCases(s, k, j, req, env);
    if env.removeInstanceOk {
      InstallIff(s1, k, x.ip, x.dnsServers, req, env);
    }
  }

  // Release of an instance

  /** Releasing keeps the tables in step even when the storage fails, and no key ever refuses it. */
  lemma TablesReleaseSlot(s: State, k: Slot, removeOk: bool, forgetOk: InstanceIdent -> bool)
    requires TablesOk(s.nets, s.db) && Held(s.nets, k)
    ensures var (s', ok) := ReleaseSlot(s, k, removeOk, forgetOk);
            TablesOk(s'.nets, s'.db) && AsComplete(s, s') && ok == removeOk
  {
    TablesAfterDrop(s.nets, s.db, k);
    if removeOk {
      TablesDropped(s, k, ReleaseSlot(s, k, removeOk, forgetOk).0);
    }
  }

  lemma TablesRelease(s: State, ident: InstanceIdent, nodeID: NodeID, removeOk: bool, forgetOk: InstanceIdent -> bool,
                      order: Order)
    requires TablesOk(s.nets, s.db) && IsOrder(order)
    ensures var (s', ok) := ReleaseInstance(s, ident, nodeID, removeOk, forgetOk, order);
            && TablesOk(s'.nets, s'.db) && AsComplete(s, s')
            && (ok <==> removeOk || !HeldOnNode(s, ident, nodeID))
  {
    var k := ReleaseCases(s, ident, nodeID, removeOk, forgetOk, order);
    if k.Some? {
      TablesReleaseSlot(s, k.value, removeOk, forgetOk);
    }
  }

  // Node networks

  /** Every row that is written is accepted, unless its network has none. */
  lemma TablesGetNode(s: State, networkID: NetworkID, nodeID: NodeID, e: NodeInput)
    requires TablesOk(s.nets, s.db)
    ensures var (s', r) := GetNodeNetworkParams(s, networkID, nodeID, e);
            var writes := WritesRow(s, networkID, nodeID, e);
            && TablesOk(s'.nets, s'.db)
            && (RowsComplete(s'.nets, s'.db) <==>
                RowsComplete(s.nets, s.db) && !(writes && StorageFails(s, networkID, e)))
            && (r.Some? <==> HasHost(s.nets, HostKey(networkID, nodeID)) ||
                             (writes && !StorageFails(s, networkID, e) &&
                              (networkID in s.nets ==> networkID in s.db.networks)))
  {
    if WritesRow(s, networkID, nodeID, e) {
      var host, network := GetNodeCases(s, networkID, nodeID, e);
      if networkID in s.nets {
        TablesAfterPutHost(s.nets, s.db, networkID, host, e.addHostOk);
      } else {
        TablesAfterNewNetwork(s.nets, s.db, network, host, e);
      }
    }
  }

  // Node release

  /** Instances in step, and the rows of networks and nodes complete if that is asked for. */
  ghost predicate TablesAll(s: State, complete: bool) {
    TablesOk(s.nets, s.db) && (complete ==> RowsComplete(s.nets, s.db))
  }

  lemma TablesKeptByRelease(complete: bool, forgetOk: InstanceIdent -> bool)
    ensures KeptByRelease((s: State) => TablesAll(s, complete), forgetOk)
  {
    var inv := (s: State) => TablesAll(s, complete);
    forall s: State, k: Slot
      ensures ReleaseKeeps(inv, forgetOk, s, k)
    {
      if TablesAll(s, complete) && Held(s.nets, k) {
        TablesReleaseSlot(s, k, true, forgetOk);
      }
    }
  }

  lemma {:induction false} ReleaseRowsOnlyDelete(s: State, slots: seq<Slot>, failAt: nat,
                                                 forgetOk: InstanceIdent -> bool, ident: InstanceIdent)
    requires forall k | k in slots :: Held(s.nets, k)
    requires ident !in s.db.instances
    ensures ident !in ReleaseRows(s, slots, failAt, forgetOk).0.db.instances
    decreases slots
  {
    if slots != [] {
      var (s1, ok) := ReleaseRow(s, slots[0], failAt != 0, forgetOk);
      if ok {
        ReleaseRowsOnlyDelete(s1, slots[1..], failAt - 1, forgetOk, ident);
      }
    }
  }

  /** A row that is gone while memory holds the instance. */
  lemma DeletedRowsLost(s: State, slots: seq<Slot>, failAt: nat, forgetOk: InstanceIdent -> bool, s': State)
    requires MirrorInstances(s.nets, s.db.instances)
    requires slots != [] && failAt > 0 && forall k | k in slots :: Held(s.nets, k)
    requires s'.nets == s.nets && s'.db == ReleaseRows(s, slots, failAt, forgetOk).0.db
    ensures !MirrorInstances(s'.nets, s'.db.instances)
  {
    var k := slots[0];
    assert k in slots;
    var (s1, ok) := ReleaseRow(s, k, true, forgetOk);
    ReleaseRowsOnlyDelete(s1, slots[1..], failAt - 1, forgetOk, k.ident);
    assert Held(s'.nets, k) && k.ident !in s'.db.instances;
  }

  lemma TablesWithoutHost(s: State, h: HostKey, complete: bool)
    requires TablesAll(s, complete) && HasHost(s.nets, h) && h in s.db.hosts
    requires s.nets[h.networkID].hosts[h.nodeID].instances == map[]
    ensures DeleteHost(s.db, h, true).1 && TablesAll(WithoutHost(s, h), complete)
  {
    TablesAfterDropHost(s.nets, s.db, h);
  }

  lemma TablesRemoveNetwork(s: State, networkID: NetworkID, storageOk: bool, complete: bool)
    requires TablesAll(s, complete) && networkID in s.nets && s.nets[networkID].hosts == map[]
    requires networkID in s.db.networks
    ensures var (s', ok) := RemoveNetwork(s, networkID, storageOk); TablesAll(s', complete) && ok == storageOk
  {
    TablesAfterDropNetwork(s.nets, s.db, networkID);
  }

  /** Removing a node without instances, and its network after the last node. */
  lemma TablesRemoveHost(s: State, h: HostKey, failAt: nat, calls: nat, complete: bool)
    requires TablesAll(s, complete) && HasHost(s.nets, h)
    requires s.nets[h.networkID].hosts[h.nodeID].instances == map[]
    ensures var (s', ok) := RemoveHost(s, h, failAt, calls);
            && TablesAll(s', complete)
            && (ok <==> h in s.db.hosts && failAt != calls && !(LastHost(s, h) && failAt == calls + 1))
  {
    if failAt != calls && h in s.db.hosts {
      TablesWithoutHost(s, h, complete);
      RemoveHostCases(s, h, failAt, calls);
      if LastHost(s, h) {
        TablesRemoveNetwork(WithoutHost(s, h), h.networkID, failAt != calls + 1, complete);
      }
    }
  }

  /** Instances are only held on nodes with a row. */
  lemma HeldOnWrittenHost(s: State, k: Slot)
    requires TablesOk(s.nets, s.db) && Held(s.nets, k)
    ensures HostKey(k.networkID, k.nodeID) in s.db.hosts
  {
    assert k.ident in s.db.instances;
  }

  lemma {:induction false} ReleaseRowsKeepHosts(s: State, slots: seq<Slot>, failAt: nat,
                                                forgetOk: InstanceIdent -> bool)
    requires forall k | k in slots :: Held(s.nets, k)
    ensures ReleaseRows(s, slots, failAt, forgetOk).0.db.hosts == s.db.hosts
    decreases slots
  {
    if slots != [] {
      var (s1, ok) := ReleaseRow(s, slots[0], failAt != 0, forgetOk);
      if ok {
        ReleaseRowsKeepHosts(s1, slots[1..], failAt - 1, forgetOk);
      }
    }
  }

  lemma TablesReleaseNodeLate(s: State, h: HostKey, failAt: nat, forgetOk: InstanceIdent -> bool, slots: seq<Slot>,
                              complete: bool)
    requires TablesAll(s, complete) && HasHost(s.nets, h) && ListsHost(slots, s.nets, h) && |slots| < failAt
    requires h in s.db.hosts
    ensures ReleaseRows(s, slots, failAt, forgetOk).1
    ensures var s1 := ReleaseRows(s, slots, failAt, forgetOk).0;
            var (s', ok) := RemoveHost(s1, h, failAt, |slots|);
            && DeleteHost(s1.db, h, true).1
            && TablesAll(s', complete) && (ok <==> !(LastHost(s, h) && failAt == |slots| + 1))
  {
    TablesKeptByRelease(complete, forgetOk);
    var nets := ReleaseNodeRows((t: State) => TablesAll(t, complete), s, h, failAt, forgetOk, slots);
    var s1 := ReleaseRows(s, slots, failAt, forgetOk).0;
    ReleaseRowsKeepHosts(s, slots, failAt, forgetOk);
    TablesWithoutHost(s1.(nets := nets), h, complete);
    TablesRemoveHost(s1.(nets := nets), h, failAt, |slots|, complete);
    RemoveHostAlike(s1, nets, h, failAt, |slots|);
  }

  /** A storage failure in between: some rows of the node's instances are gone, and memory still holds all of them. */
  ghost predicate LosesRows(s: State, h: HostKey, failAt: nat, order: Order) {
    HasHost(s.nets, h) && 1 <= failAt <= |Filter(order(s.nets), SlotsOn(h))|
  }

  /** The row deletions have begun and do not come to their end. */
  lemma LostRows(s: State, h: HostKey, failAt: nat, forgetOk: InstanceIdent -> bool, order: Order)
    requires MirrorInstances(s.nets, s.db.instances) && IsOrder(order) && LosesRows(s, h, failAt, order)
    ensures var (s', ok) := ReleaseNode(s, h, failAt, forgetOk, order);
            !MirrorInstances(s'.nets, s'.db.instances) && !ok
  {
    var slots := ReleaseNodeCases(s, h, failAt, forgetOk, order);
    if failAt < |slots| {
      ReleaseRowsFail(s, slots, failAt, forgetOk);
    }
    DeletedRowsLost(s, slots, failAt, forgetOk, ReleaseNode(s, h, failAt, forgetOk, order).0);
  }

  /** Without any deletion the tables do not change. */
  lemma FirstCallFails(s: State, h: HostKey, forgetOk: InstanceIdent -> bool, order: Order)
    requires IsOrder(order) && HasHost(s.nets, h)
    ensures var (s', ok) := ReleaseNode(s, h, 0, forgetOk, order); s'.nets == s.nets && s'.db == s.db && !ok
  {
    var slots := ReleaseNodeCases(s, h, 0, forgetOk, order);
    if slots != [] {
      ReleaseRowsFail(s, slots, 0, forgetOk);
    }
  }

  lemma TablesReleaseNode(s: State, h: HostKey, failAt: nat, forgetOk: InstanceIdent -> bool, order: Order,
                          complete: bool)
    requires TablesAll(s, complete) && IsOrder(order)
    ensures var (s', ok) := ReleaseNode(s, h, failAt, forgetOk, order);
            && (TablesAll(s', complete) <==> !LosesRows(s, h, failAt, order))
            && (LosesRows(s, h, failAt, order) ==> !MirrorInstances(s'.nets, s'.db.instances))
            && (ok <==> HasHost(s.nets, h) && h in s.db.hosts && failAt >= ReleaseCalls(s, h, order))
  {
    if HasHost(s.nets, h) {
      var slots := ReleaseNodeCases(s, h, failAt, forgetOk, order);
      if LosesRows(s, h, failAt, order) {
        LostRows(s, h, failAt, forgetOk, order);
      } else if failAt == 0 {
        FirstCallFails(s, h, forgetOk, order);
      } else if h in s.db.hosts {
        TablesReleaseNodeLate(s, h, failAt, forgetOk, slots, complete);
      } else if slots != [] {
        assert slots[0] in slots;
        HeldOnWrittenHost(s, slots[0]);
        assert false;
      }
    }
  }
}
