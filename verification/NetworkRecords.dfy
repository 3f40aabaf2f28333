/**
 * How the pending records in memory and in the table follow the instances, whatever the calls on the
 * pending table answer.
 */
module NetworkRecords {
  import opened Cidr
  import opened NetPool
  import opened Seqs
  import opened IpSubnets
  import opened NetworkTypes
  import opened NetworkDatabase
  import opened FirewallRules
  import opened PendingConnections
  import opened NetworkSpec
  import opened NetworkInvariant
  import opened NetworkSteps
  import opened NetworkTables

  function SlotOfRecord(p: PendingConnection): Slot {
    Slot(p.networkID, p.nodeID, p.requester)
  }

  /** Where records are live, the partial key is a key, and a requester has one node. */
  lemma LiveKeys(s: State)
    requires Alive(s)
    ensures PartialKeyDecides(s.db.pending) && OneNodeEach(s.db.pending) && OneNodeEach(s.pending)
  {
    forall p, q | LiveRecord(s.nets, p) && LiveRecord(s.nets, q) && p.requester == q.requester
      ensures SlotOfRecord(p) == SlotOfRecord(q)
    {
      HeldOnce(s.nets, s.db.instances, SlotOfRecord(p), SlotOfRecord(q));
    }
  }

  lemma WithinMembers(pending: seq<PendingConnection>, rows: seq<PendingConnection>)
    requires Within(pending, rows)
    ensures forall p | p in pending :: p in rows
  {
    forall p | p in pending
      ensures p in rows
    {
      assert multiset(pending)[p] <= multiset(rows)[p];
    }
  }

  lemma WrittenMembers(records: seq<PendingConnection>, addOk: nat -> bool)
    ensures forall p | p in Written(records, addOk) :: p in records
  {
    forall p | p in Written(records, addOk)
      ensures p in records
    {
      WrittenCount(records, addOk, p);
      assert multiset(records)[p] > 0;
    }
  }

  lemma ForgetMembers(ps: seq<PendingConnection>, ident: InstanceIdent)
    ensures forall p :: p in Forget(ps, ident) <==> p in ps && p.requester != ident
  {
    forall p
      ensures p in Forget(ps, ident) <==> p in ps && p.requester != ident
    {
      FilterMember(ps, OtherRequester(ident), p);
    }
  }

  // Liveness after the updates

  lemma RecordsSame(nets: Nets, nets': Nets, pending: seq<PendingConnection>, rows: seq<PendingConnection>)
    requires RecordsLive(nets, pending, rows) && SameInstances(nets, nets')
    requires forall n | n in nets && n in nets' :: nets'[n].network == nets[n].network
    ensures RecordsLive(nets', pending, rows)
  {
  }

  lemma RecordsStored(nets: Nets, pending: seq<PendingConnection>, rows: seq<PendingConnection>, k: Slot,
                      unresolved: seq<Connection>, addOk: nat -> bool)
    requires RecordsLive(nets, pending, rows) && Held(nets, k)
    ensures var r := Records(k, At(nets, k).ip, nets[k.networkID].network.subnet, unresolved);
            RecordsLive(nets, pending + r, rows + Written(r, addOk))
  {
    var r := Records(k, At(nets, k).ip, nets[k.networkID].network.subnet, unresolved);
    WrittenMembers(r, addOk);
    assert forall p | p in r :: LiveRecord(nets, p);
  }

  lemma RecordsAfterPut(nets: Nets, pending: seq<PendingConnection>, rows: seq<PendingConnection>, k: Slot, x: Instance,
                        unresolved: seq<Connection>, addOk: nat -> bool)
    requires RecordsLive(nets, pending, rows) && HasHost(nets, HostKey(k.networkID, k.nodeID)) && !Held(nets, k)
    ensures var r := Records(k, x.ip, nets[k.networkID].network.subnet, unresolved);
            RecordsLive(PutInstance(nets, k, x), pending + r, rows + Written(r, addOk))
  {
    LookupAfterPut(nets, k, x);
    assert RecordsLive(PutInstance(nets, k, x), pending, rows);
    RecordsStored(PutInstance(nets, k, x), pending, rows, k, unresolved, addOk);
  }

  ghost predicate HasRecord(rows: seq<PendingConnection>, ident: InstanceIdent) {
    exists p :: p in rows && p.requester == ident
  }

  /** A record whose requester is not held where the record says. */
  ghost predicate Strays(s: State, p: PendingConnection) {
    p in s.db.pending && !Held(s.nets, SlotOfRecord(p))
  }

  /** An instance leaves its slot and memory its records, but not necessarily the table. */
  lemma RecordsDropped(s: State, k: Slot, forgetOk: InstanceIdent -> bool, s': State)
    requires Alive(s) && Held(s.nets, k) && s'.nets == DropInstance(s.nets, k)
    requires s'.pending == Forget(s.pending, k.ident)
    requires s'.db.pending == if forgetOk(k.ident) then Forget(s.db.pending, k.ident) else s.db.pending
    ensures RecordsLive(s'.nets, s'.pending, s'.db.pending) <==> forgetOk(k.ident) || !HasRecord(s.db.pending, k.ident)
    ensures forall p | p in s.db.pending && p.requester == k.ident :: SlotOfRecord(p) == k
  {
    LookupAfterDrop(s.nets, k);
    ForgetMembers(s.pending, k.ident);
    ForgetMembers(s.db.pending, k.ident);
    forall p | p in s.db.pending && p.requester == k.ident
      ensures SlotOfRecord(p) == k
    {
      assert LiveRecord(s.nets, p);
      HeldOnce(s.nets, s.db.instances, SlotOfRecord(p), k);
    }
    forall p | (p in s.pending || p in s.db.pending) && p.requester != k.ident
      ensures LiveRecord(s'.nets, p)
    {
      assert LiveRecord(s.nets, p) && SlotOfRecord(p) != k;
    }
  }

  // Allocation

  lemma RecordsInstall(s: State, k: Slot, ip: Addr, dnsServers: seq<string>, req: Request, env: Env)
    requires RecordsLive(s.nets, s.pending, s.db.pending) && IsOrder(env.order)
    requires HasHost(s.nets, HostKey(k.networkID, k.nodeID)) && !Held(s.nets, k)
    ensures var s' := Install(s, k, ip, dnsServers, req, env).0; RecordsLive(s'.nets, s'.pending, s'.db.pending)
  {
    if Install(s, k, ip, dnsServers, req, env).1.Failure? {
      InstallFailed(s, k, ip, dnsServers, req, env);
    } else {
      var x, unresolved := InstallCases(s, k, ip, dnsServers, req, env);
      RecordsAfterPut(s.nets, s.pending, s.db.pending, k, x, unresolved, env.answers.addOk);
    }
  }

  lemma InstallKeepsStray(s: State, k: Slot, ip: Addr, dnsServers: seq<string>, req: Request, env: Env,
                          p: PendingConnection)
    requires Strays(s, p) && SlotOfRecord(p) != k && IsOrder(env.order)
    requires HasHost(s.nets, HostKey(k.networkID, k.nodeID)) && !Held(s.nets, k)
    ensures Strays(Install(s, k, ip, dnsServers, req, env).0, p)
  {
    if Install(s, k, ip, dnsServers, req, env).1.Failure? {
      InstallFailed(s, k, ip, dnsServers, req, env);
    } else {
      var x, unresolved := InstallCases(s, k, ip, dnsServers, req, env);
      LookupAfterPut(s.nets, k, x);
    }
  }

  lemma RecordsRefresh(s: State, k: Slot, req: Request, env: Env)
    requires RecordsLive(s.nets, s.pending, s.db.pending) && Held(s.nets, k) && IsOrder(env.order)
    ensures var s' := Refresh(s, k, req, env).0; RecordsLive(s'.nets, s'.pending, s'.db.pending)
  {
    var unresolved := RefreshCases(s, k, req, env);
    ForgetMembers(s.pending, k.ident);
    ForgetMembers(s.db.pending, k.ident);
    var s1 := ForgetRequester(s, k.ident, env.answers.forgetOk);
    RecordsStored(s.nets, s1.pending, s1.db.pending, k, unresolved, env.answers.addOk);
  }

  lemma UnplacedRecords(s: State, k: Slot, j: Slot, forgetOk: InstanceIdent -> bool)
    requires Alive(s) && Held(s.nets, j) && Matches(j, k, Elsewhere) && DeleteInstance(s.db, k.ident, true).1
    requires HasHost(s.nets, HostKey(k.networkID, k.nodeID)) && !Held(s.nets, k)
    ensures var s1 := Unplaced(s, k, j, forgetOk);
            && HasHost(s1.nets, HostKey(k.networkID, k.nodeID)) && !Held(s1.nets, k)
            && (forgetOk(k.ident) || !HasRecord(s.db.pending, k.ident) ==>
                  RecordsLive(s1.nets, s1.pending, s1.db.pending))
            && (!forgetOk(k.ident) ==>
                  forall p | p in s.db.pending && p.requester == k.ident :: Strays(s1, p) && SlotOfRecord(p) == j)
  {
    LookupAfterDrop(s.nets, j);
    RecordsDropped(s, j, forgetOk, Unplaced(s, k, j, forgetOk));
  }

  lemma PlacedRecords(s: State, k: Slot, j: Slot, req: Request, env: Env)
    requires Held(s.nets, j) && Matches(j, k, Elsewhere) && IsOrder(env.order)
    requires var s1 := Unplaced(s, k, j, env.answers.forgetOk);
             && HasHost(s1.nets, HostKey(k.networkID, k.nodeID)) && !Held(s1.nets, k)
             && (env.answers.forgetOk(k.ident) || !HasRecord(s.db.pending, k.ident) ==>
                   RecordsLive(s1.nets, s1.pending, s1.db.pending))
             && (!env.answers.forgetOk(k.ident) ==>
                   forall p | p in s.db.pending && p.requester == k.ident :: Strays(s1, p) && SlotOfRecord(p) == j)
    ensures var s1 := Unplaced(s, k, j, env.answers.forgetOk);
            var s' := Install(s1, k, At(s.nets, j).ip, At(s.nets, j).dnsServers, req, env).0;
            RecordsLive(s'.nets, s'.pending, s'.db.pending) <==>
            env.answers.forgetOk(k.ident) || !HasRecord(s.db.pending, k.ident)
  {
    var (x, s1) := (At(s.nets, j), Unplaced(s, k, j, env.answers.forgetOk));
    if env.answers.forgetOk(k.ident) || !HasRecord(s.db.pending, k.ident) {
      RecordsInstall(s1, k, x.ip, x.dnsServers, req, env);
    } else {
      var p :| p in s.db.pending && p.requester == k.ident;
      InstallKeepsStray(s1, k, x.ip, x.dnsServers, req, env, p);
    }
  }

  /** A move strands the records of its instance exactly if their deletion fails. */
  lemma RecordsMigrate(s: State, k: Slot, j: Slot, req: Request, env: Env)
    requires Alive(s) && IsOrder(env.order) && Held(s.nets, j) && Matches(j, k, Elsewhere)
    requires HasHost(s.nets, HostKey(k.networkID, k.nodeID)) && !Held(s.nets, k)
    ensures var s' := Migrate(s, k, j, req, env).0;
            RecordsLive(s'.nets, s'.pending, s'.db.pending) <==>
            !(env.removeInstanceOk && !env.answers.forgetOk(k.ident) && HasRecord(s.db.pending, k.ident))
  {
    TablesAfterDrop(s.nets, s.db, j);
    MigrateCases(s, k, j, req, env);
    if env.removeInstanceOk {
      UnplacedRecords(s, k, j, env.answers.forgetOk);
      PlacedRecords(s, k, j, req, env);
    }
  }

  lemma RecordsAllocate(s: State, k: Slot, req: Request, env: Env)
    requires Alive(s) && IsOrder(env.order)
    ensures var s' := Allocate(s, k, req, env).0;
            RecordsLive(s'.nets, s'.pending, s'.db.pending) <==>
            !(Migrates(s, k) && env.removeInstanceOk && !env.answers.forgetOk(k.ident) &&
              HasRecord(s.db.pending, k.ident))
  {
    var j := AllocateCases(s, k, req, env);
    if HasHost(s.nets, HostKey(k.networkID, k.nodeID)) {
      if Held(s.nets, k) {
        RecordsRefresh(s, k, req, env);
      } else if j.Some? {
        RecordsMigrate(s, k, j.value, req, env);
      } else if TakeIP(s.ip, k.networkID).Some? {
        var (ip, ips) := TakeIP(s.ip, k.networkID).value;
        RecordsInstall(s.(ip := ips), k, ip, [env.dnsIP], req, env);
      }
    }
  }

  // Release of an instance

  lemma RecordsReleaseSlot(s: State, k: Slot, removeOk: bool, forgetOk: InstanceIdent -> bool)
    requires Alive(s) && Held(s.nets, k)
    ensures var s' := ReleaseSlot(s, k, removeOk, forgetOk).0;
            RecordsLive(s'.nets, s'.pending, s'.db.pending) <==>
            !(removeOk && !forgetOk(k.ident) && HasRecord(s.db.pending, k.ident))
  {
    if removeOk {
      TablesAfterDrop(s.nets, s.db, k);
      RecordsDropped(s, k, forgetOk, ReleaseSlot(s, k, removeOk, forgetOk).0);
    }
  }

  lemma RecordsRelease(s: State, ident: InstanceIdent, nodeID: NodeID, removeOk: bool,
                       forgetOk: InstanceIdent -> bool, order: Order)
    requires Alive(s) && IsOrder(order)
    ensures var s' := ReleaseInstance(s, ident, nodeID, removeOk, forgetOk, order).0;
            RecordsLive(s'.nets, s'.pending, s'.db.pending) <==>
            !(HeldOnNode(s, ident, nodeID) && removeOk && !forgetOk(ident) && HasRecord(s.db.pending, ident))
  {
    var k := ReleaseCases(s, ident, nodeID, removeOk, forgetOk, order);
    if k.Some? {
      RecordsReleaseSlot(s, k.value, removeOk, forgetOk);
    }
  }

  // Node networks

  lemma RecordsAfterPutHost(nets: Nets, networkID: NetworkID, host: Host, pending: seq<PendingConnection>,
                            rows: seq<PendingConnection>)
    requires RecordsLive(nets, pending, rows) && networkID in nets && host.nodeID !in nets[networkID].hosts
    ensures RecordsLive(PutHost(nets, networkID, host), pending, rows)
  {
    LookupAfterPutHost(nets, networkID, host);
    RecordsSame(nets, PutHost(nets, networkID, host), pending, rows);
  }

  lemma RecordsAfterNewNetwork(nets: Nets, network: Network, host: Host, pending: seq<PendingConnection>,
                               rows: seq<PendingConnection>)
    requires RecordsLive(nets, pending, rows) && network.networkID !in nets
    ensures RecordsLive(nets[network.networkID := FirstHost(network, host)], pending, rows)
  {
    LookupAfterNewNetwork(nets, network, host);
    RecordsSame(nets, nets[network.networkID := FirstHost(network, host)], pending, rows);
  }

  lemma RecordsGetNode(s: State, networkID: NetworkID, nodeID: NodeID, e: NodeInput)
    requires RecordsLive(s.nets, s.pending, s.db.pending)
    ensures var s' := GetNodeNetworkParams(s, networkID, nodeID, e).0;
            && RecordsLive(s'.nets, s'.pending, s'.db.pending)
            && s'.pending == s.pending && s'.db.pending == s.db.pending
  {
    if WritesRow(s, networkID, nodeID, e) {
      var host, network := GetNodeCases(s, networkID, nodeID, e);
      if networkID in s.nets {
        RecordsAfterPutHost(s.nets, networkID, host, s.pending, s.db.pending);
      } else {
        RecordsAfterNewNetwork(s.nets, network, host, s.pending, s.db.pending);
      }
    }
  }

  // Node release

  ghost predicate RequestedBy(p: PendingConnection, slots: seq<Slot>, ok: InstanceIdent -> bool) {
    exists k :: k in slots && k.ident == p.requester && ok(k.ident)
  }

  /** The loop takes the records of its instances from memory, and from the table where their deletion succeeds. */
  lemma {:induction false} ReleaseRowsRecords(s: State, slots: seq<Slot>, failAt: nat, forgetOk: InstanceIdent -> bool)
    requires forall k | k in slots :: Held(s.nets, k)
    ensures var (s', ok) := ReleaseRows(s, slots, failAt, forgetOk);
            && (forall p | p in s'.pending :: p in s.pending)
            && (forall p | p in s'.db.pending :: p in s.db.pending)
            && (forall p | p in s.db.pending && !RequestedBy(p, slots, forgetOk) :: p in s'.db.pending)
            && (ok ==> forall p :: p in s'.pending <==> p in s.pending && !RequestedBy(p, slots, _ => true))
            && (ok ==> forall p :: p in s'.db.pending <==> p in s.db.pending && !RequestedBy(p, slots, forgetOk))
    decreases slots
  {
    if slots != [] {
      var k := slots[0];
      var (s1, ok) := ReleaseRow(s, k, failAt != 0, forgetOk);
      assert k in slots && slots == [k] + slots[1..];
      if ok {
        ForgetMembers(s.pending, k.ident);
        ForgetMembers(s.db.pending, k.ident);
        ReleaseRowsRecords(s1, slots[1..], failAt - 1, forgetOk);
        forall p, yes: InstanceIdent -> bool
          ensures RequestedBy(p, slots, yes) <==>
                  (k.ident == p.requester && yes(k.ident)) || RequestedBy(p, slots[1..], yes)
        {
        }
      }
    }
  }

  /** Some instance of the node has a record whose deletion fails. */
  ghost predicate LeavesRecord(s: State, slots: seq<Slot>, forgetOk: InstanceIdent -> bool) {
    exists k :: k in slots && !forgetOk(k.ident) && HasRecord(s.db.pending, k.ident)
  }

  lemma RecordOnHost(s: State, h: HostKey, slots: seq<Slot>, p: PendingConnection)
    requires MirrorInstances(s.nets, s.db.instances) && LiveRecord(s.nets, p)
    requires HasHost(s.nets, h) && ListsHost(slots, s.nets, h)
    ensures forall ok: InstanceIdent -> bool ::
              RequestedBy(p, slots, ok) <==> SlotOfRecord(p) in slots && ok(p.requester)
    ensures LiveRecord(DropHost(s.nets, h), p) <==> SlotOfRecord(p) !in slots
  {
    var j := SlotOfRecord(p);
    forall ok: InstanceIdent -> bool
      ensures RequestedBy(p, slots, ok) <==> j in slots && ok(p.requester)
    {
      if k :| k in slots && k.ident == p.requester && ok(k.ident) {
        HeldOnce(s.nets, s.db.instances, j, k);
      }
    }
    assert Held(DropHost(s.nets, h), j) <==> Held(s.nets, j) && !OnHost(h, j);
  }

  lemma RecordsWithoutHost(s: State, h: HostKey, slots: seq<Slot>, forgetOk: InstanceIdent -> bool, s': State)
    requires Alive(s) && HasHost(s.nets, h) && ListsHost(slots, s.nets, h) && s'.nets == DropHost(s.nets, h)
    requires forall p :: p in s'.pending <==> p in s.pending && !RequestedBy(p, slots, _ => true)
    requires forall p :: p in s'.db.pending <==> p in s.db.pending && !RequestedBy(p, slots, forgetOk)
    ensures RecordsLive(s'.nets, s'.pending, s'.db.pending) <==> !LeavesRecord(s, slots, forgetOk)
  {
    forall p | p in s.pending || p in s.db.pending
      ensures RequestedBy(p, slots, _ => true) <==> SlotOfRecord(p) in slots
      ensures RequestedBy(p, slots, forgetOk) <==> SlotOfRecord(p) in slots && forgetOk(p.requester)
      ensures LiveRecord(s'.nets, p) <==> SlotOfRecord(p) !in slots
    {
      RecordOnHost(s, h, slots, p);
    }
    if LeavesRecord(s, slots, forgetOk) {
      var k :| k in slots && !forgetOk(k.ident) && HasRecord(s.db.pending, k.ident);
      var p :| p in s.db.pending && p.requester == k.ident;
      HeldOnce(s.nets, s.db.instances, k, SlotOfRecord(p));
      assert !LiveRecord(s'.nets, p) && p in s'.db.pending;
    } else {
      forall p | p in s'.db.pending
        ensures SlotOfRecord(p) !in slots
      {
        assert HasRecord(s.db.pending, p.requester);
      }
    }
  }

  /** The node's row can be removed: the call gets that far. */
  ghost predicate ReachesHost(s: State, h: HostKey, failAt: nat, order: Order) {
    HasHost(s.nets, h) && h in s.db.hosts && failAt > |Filter(order(s.nets), SlotsOn(h))|
  }

  lemma NothingDropped(s: State, h: HostKey, failAt: nat, forgetOk: InstanceIdent -> bool, order: Order)
    requires TablesOk(s.nets, s.db) && IsOrder(order) && !ReachesHost(s, h, failAt, order)
    ensures var s' := ReleaseNode(s, h, failAt, forgetOk, order).0;
            && s'.nets == s.nets
            && (forall p | p in s'.pending :: p in s.pending) && (forall p | p in s'.db.pending :: p in s.db.pending)
  {
    if HasHost(s.nets, h) {
      var slots := ReleaseNodeCases(s, h, failAt, forgetOk, order);
      ReleaseRowsRecords(s, slots, failAt, forgetOk);
      ReleaseRowsKeepHosts(s, slots, failAt, forgetOk);
      if failAt < |slots| {
        ReleaseRowsFail(s, slots, failAt, forgetOk);
      }
    }
  }

  lemma HostDropped(s: State, h: HostKey, failAt: nat, forgetOk: InstanceIdent -> bool, order: Order)
    returns (slots: seq<Slot>, s1: State)
    requires TablesOk(s.nets, s.db) && IsOrder(order) && ReachesHost(s, h, failAt, order)
    ensures slots == Filter(order(s.nets), SlotsOn(h)) && ListsHost(slots, s.nets, h)
    ensures s1.nets == DropHost(s.nets, h)
    ensures forall p :: p in s1.pending <==> p in s.pending && !RequestedBy(p, slots, _ => true)
    ensures forall p :: p in s1.db.pending <==> p in s.db.pending && !RequestedBy(p, slots, forgetOk)
    ensures var s' := ReleaseNode(s, h, failAt, forgetOk, order).0;
            && s'.pending == s1.pending && s'.db.pending == s1.db.pending
            && (s'.nets == s1.nets ||
                (s1.nets[h.networkID].hosts == map[] && s'.nets == s1.nets - {h.networkID}))
  {
    slots := ReleaseNodeCases(s, h, failAt, forgetOk, order);
    ReleaseRowsRecords(s, slots, failAt, forgetOk);
    TablesReleaseNodeLate(s, h, failAt, forgetOk, slots, false);
    var r := ReleaseRows(s, slots, failAt, forgetOk).0;
    RemoveHostCases(r, h, failAt, |slots|);
    s1 := WithoutHost(r, h);
  }

  /** A network without nodes holds no requester. */
  lemma RecordsWithoutNetwork(nets: Nets, networkID: NetworkID, pending: seq<PendingConnection>,
                              rows: seq<PendingConnection>)
    requires networkID in nets && nets[networkID].hosts == map[]
    ensures RecordsLive(nets - {networkID}, pending, rows) <==> RecordsLive(nets, pending, rows)
  {
    LookupAfterDropNetwork(nets, networkID);
    forall p
      ensures LiveRecord(nets - {networkID}, p) <==> LiveRecord(nets, p)
    {
      assert Held(nets - {networkID}, SlotOfRecord(p)) <==> Held(nets, SlotOfRecord(p));
    }
  }

  lemma RecordsHostDropped(s: State, h: HostKey, failAt: nat, forgetOk: InstanceIdent -> bool, order: Order)
    requires Alive(s) && IsOrder(order) && ReachesHost(s, h, failAt, order)
    ensures var s' := ReleaseNode(s, h, failAt, forgetOk, order).0;
            RecordsLive(s'.nets, s'.pending, s'.db.pending) <==>
            !LeavesRecord(s, Filter(order(s.nets), SlotsOn(h)), forgetOk)
  {
    var slots, s1 := HostDropped(s, h, failAt, forgetOk, order);
    RecordsWithoutHost(s, h, slots, forgetOk, s1);
    if s1.nets[h.networkID].hosts == map[] {
      RecordsWithoutNetwork(s1.nets, h.networkID, s1.pending, s1.db.pending);
    }
  }

  /** A node's release strands records exactly if the node goes and the deletion for one of its instances fails. */
  lemma RecordsReleaseNode(s: State, h: HostKey, failAt: nat, forgetOk: InstanceIdent -> bool, order: Order)
    requires Alive(s) && IsOrder(order)
    ensures var s' := ReleaseNode(s, h, failAt, forgetOk, order).0;
            RecordsLive(s'.nets, s'.pending, s'.db.pending) <==>
            !(ReachesHost(s, h, failAt, order) && LeavesRecord(s, Filter(order(s.nets), SlotsOn(h)), forgetOk))
  {
    if ReachesHost(s, h, failAt, order) {
      RecordsHostDropped(s, h, failAt, forgetOk, order);
    } else {
      NothingDropped(s, h, failAt, forgetOk, order);
    }
  }

  // Reconciliation

  lemma CleanedMembers(s: State, nodeID: NodeID, report: seq<InstanceReport>, answers: Answers, order: Order)
    requires IsOrder(order)
    ensures var l := CleanedLists(s, nodeID, report, answers, order);
            (forall p | p in l.memory :: p in s.pending) && (forall p | p in l.rows :: p in s.db.pending)
  {
    var l, l' := Lists(s.pending, s.db.pending), CleanedLists(s, nodeID, report, answers, order);
    assert Enumerates(order(s.nets), s.nets);
    if answers.readOk {
      forall p
        ensures p in l'.memory ==> p in l.memory
        ensures p in l'.rows ==> p in l.rows
      {
        CleanMemory(s.nets, order(s.nets), nodeID, report, l.rows, 0, answers.removeOk, l, p);
        CleanAddsNoRow(s.nets, order(s.nets), nodeID, report, l.rows, 0, answers.removeOk, l, p);
        assert p in l'.memory <==> multiset(l'.memory)[p] > 0;
        assert p in l'.rows <==> multiset(l'.rows)[p] > 0;
      }
    }
  }

  lemma {:induction false} ReloadMembers(nodeID: NodeID, todo: seq<PendingConnection>, memory: seq<PendingConnection>)
    ensures forall p | p in Reload(nodeID, todo, memory) :: p in memory || p in todo
  {
    if todo != [] {
      var missing := todo[0].nodeID == nodeID && todo[0] !in memory;
      ReloadMembers(nodeID, todo[1..], if missing then memory + [todo[0]] else memory);
    }
  }

  /** Whatever fails, cleanup and reload leave no records but those that were there. */
  lemma RecordsReconcile(s: State, nodeID: NodeID, report: seq<InstanceReport>, answers: Answers, order: Order)
    requires RecordsLive(s.nets, s.pending, s.db.pending) && IsOrder(order)
    ensures var s' := CleanAndReload(s, nodeID, report, answers, order);
            s'.nets == s.nets && RecordsLive(s'.nets, s'.pending, s'.db.pending)
  {
    var l := CleanedLists(s, nodeID, report, answers, order);
    CleanedMembers(s, nodeID, report, answers, order);
    ReloadMembers(nodeID, l.rows, l.memory);
  }

  lemma RecordsResolve(s: State, itemID: string, order: Order)
    requires IsOrder(order)
    ensures var s' := Resolve(s, itemID, order).0;
            s' == s.(pending := s'.pending) && forall p | p in s'.pending :: p in s.pending
  {
    var keep := Unresolvable(s.nets, order(s.nets), itemID);
    forall p | p in Filter(s.pending, keep)
      ensures p in s.pending
    {
      FilterMember(s.pending, keep, p);
    }
  }

  // Copies in memory and in the table

  lemma WithinForget(s: State, ident: InstanceIdent, forgetOk: InstanceIdent -> bool)
    requires Within(s.pending, s.db.pending)
    ensures var s' := ForgetRequester(s, ident, forgetOk); Within(s'.pending, s'.db.pending)
  {
    var s' := ForgetRequester(s, ident, forgetOk);
    forall p
      ensures multiset(s'.pending)[p] <= multiset(s'.db.pending)[p]
    {
      assert multiset(s.pending)[p] <= multiset(s.db.pending)[p];
      FilterCount(s.pending, OtherRequester(ident), p);
      FilterCount(s.db.pending, OtherRequester(ident), p);
    }
  }

  lemma WithinStored(s: State, k: Slot, ip: Addr, subnet: Subnet, unresolved: seq<Connection>, addOk: nat -> bool)
    requires Within(s.pending, s.db.pending) && forall i | 0 <= i < |unresolved| :: addOk(i)
    ensures var s' := StorePending(s, k, ip, subnet, unresolved, addOk); Within(s'.pending, s'.db.pending)
  {
    var r := Records(k, ip, subnet, unresolved);
    AllWritten(r, addOk);
    forall p
      ensures multiset(s.pending + r)[p] <= multiset(s.db.pending + r)[p]
    {
      assert multiset(s.pending)[p] <= multiset(s.db.pending)[p];
    }
  }

  /** Every insert into the pending table succeeds. */
  ghost predicate InsertsOk(env: Env) {
    forall i: nat :: env.answers.addOk(i)
  }

  lemma WithinInstall(s: State, k: Slot, ip: Addr, dnsServers: seq<string>, req: Request, env: Env)
    requires Within(s.pending, s.db.pending) && InsertsOk(env) && IsOrder(env.order)
    requires HasHost(s.nets, HostKey(k.networkID, k.nodeID)) && !Held(s.nets, k)
    ensures var s' := Install(s, k, ip, dnsServers, req, env).0; Within(s'.pending, s'.db.pending)
  {
    if Install(s, k, ip, dnsServers, req, env).1.Failure? {
      InstallFailed(s, k, ip, dnsServers, req, env);
    } else {
      var x, unresolved := InstallCases(s, k, ip, dnsServers, req, env);
      WithinStored(s, k, ip, s.nets[k.networkID].network.subnet, unresolved, env.answers.addOk);
    }
  }

  lemma WithinRefresh(s: State, k: Slot, req: Request, env: Env)
    requires Within(s.pending, s.db.pending) && InsertsOk(env) && IsOrder(env.order) && Held(s.nets, k)
    ensures var s' := Refresh(s, k, req, env).0; Within(s'.pending, s'.db.pending)
  {
    var unresolved := RefreshCases(s, k, req, env);
    WithinForget(s, k.ident, env.answers.forgetOk);
    WithinStored(ForgetRequester(s, k.ident, env.answers.forgetOk), k, At(s.nets, k).ip,
                 s.nets[k.networkID].network.subnet, unresolved, env.answers.addOk);
  }

  lemma WithinAllocate(s: State, k: Slot, req: Request, env: Env)
    requires Within(s.pending, s.db.pending) && InsertsOk(env) && IsOrder(env.order)
    ensures var s' := Allocate(s, k, req, env).0; Within(s'.pending, s'.db.pending)
  {
    var j := AllocateCases(s, k, req, env);
    if HasHost(s.nets, HostKey(k.networkID, k.nodeID)) {
      if Held(s.nets, k) {
        WithinRefresh(s, k, req, env);
      } else if j.Some? {
        var x := At(s.nets, j.value);
        LookupAfterDrop(s.nets, j.value);
        MigrateCases(s, k, j.value, req, env);
        WithinForget(s, k.ident, env.answers.forgetOk);
        if DeleteInstance(s.db, k.ident, env.removeInstanceOk).1 {
          WithinInstall(Unplaced(s, k, j.value, env.answers.forgetOk), k, x.ip, x.dnsServers, req, env);
        }
      } else if TakeIP(s.ip, k.networkID).Some? {
        var (ip, ips) := TakeIP(s.ip, k.networkID).value;
        WithinInstall(s.(ip := ips), k, ip, [env.dnsIP], req, env);
      }
    }
  }

  lemma WithinReleaseRow(s: State, k: Slot, removeOk: bool, forgetOk: InstanceIdent -> bool)
    requires Within(s.pending, s.db.pending) && Held(s.nets, k)
    ensures var s' := ReleaseRow(s, k, removeOk, forgetOk).0; Within(s'.pending, s'.db.pending)
  {
    WithinForget(s, k.ident, forgetOk);
  }

  lemma WithinRelease(s: State, ident: InstanceIdent, nodeID: NodeID, removeOk: bool, forgetOk: InstanceIdent -> bool,
                      order: Order)
    requires Within(s.pending, s.db.pending) && IsOrder(order)
    ensures var s' := ReleaseInstance(s, ident, nodeID, removeOk, forgetOk, order).0;
            Within(s'.pending, s'.db.pending)
  {
    var k := ReleaseCases(s, ident, nodeID, removeOk, forgetOk, order);
    if k.Some? {
      WithinReleaseRow(s, k.value, removeOk, forgetOk);
    }
  }

  lemma {:induction false} WithinReleaseRows(s: State, slots: seq<Slot>, failAt: nat, forgetOk: InstanceIdent -> bool)
    requires Within(s.pending, s.db.pending) && forall k | k in slots :: Held(s.nets, k)
    ensures var s' := ReleaseRows(s, slots, failAt, forgetOk).0; Within(s'.pending, s'.db.pending)
    decreases slots
  {
    if slots != [] {
      assert slots[0] in slots;
      WithinReleaseRow(s, slots[0], failAt != 0, forgetOk);
      var (s1, ok) := ReleaseRow(s, slots[0], failAt != 0, forgetOk);
      if ok {
        WithinReleaseRows(s1, slots[1..], failAt - 1, forgetOk);
      }
    }
  }

  lemma RemoveHostKeepsRecords(s: State, h: HostKey, failAt: nat, calls: nat)
    requires HasHost(s.nets, h)
    ensures var s' := RemoveHost(s, h, failAt, calls).0; s'.pending == s.pending && s'.db.pending == s.db.pending
  {
    if DeleteHost(s.db, h, failAt != calls).1 {
      RemoveHostCases(s, h, failAt, calls);
    }
  }

  lemma WithinReleaseNode(s: State, h: HostKey, failAt: nat, forgetOk: InstanceIdent -> bool, order: Order)
    requires Within(s.pending, s.db.pending) && IsOrder(order)
    ensures var s' := ReleaseNode(s, h, failAt, forgetOk, order).0; Within(s'.pending, s'.db.pending)
  {
    if HasHost(s.nets, h) {
      var slots := ReleaseNodeCases(s, h, failAt, forgetOk, order);
      WithinReleaseRows(s, slots, failAt, forgetOk);
      RemoveHostKeepsRecords(ReleaseRows(s, slots, failAt, forgetOk).0, h, failAt, |slots|);
    }
  }

  lemma WithinCleaned(s: State, nodeID: NodeID, report: seq<InstanceReport>, answers: Answers, order: Order)
    requires Tracked(s) && IsOrder(order)
    ensures var l := CleanedLists(s, nodeID, report, answers, order); Within(l.memory, l.rows)
  {
    LiveKeys(s);
    assert Enumerates(order(s.nets), s.nets);
    CleanRemovesConfirmed(s.nets, order(s.nets), nodeID, report, answers.removeOk, Lists(s.pending, s.db.pending));
  }

  lemma WithinReconcile(s: State, nodeID: NodeID, report: seq<InstanceReport>, answers: Answers, order: Order)
    requires Tracked(s) && IsOrder(order)
    ensures var s' := CleanAndReload(s, nodeID, report, answers, order); Within(s'.pending, s'.db.pending)
  {
    var l := CleanedLists(s, nodeID, report, answers, order);
    WithinCleaned(s, nodeID, report, answers, order);
    ReloadRestores(nodeID, l.rows, l.memory, l.rows);
  }

  lemma WithinResolve(s: State, itemID: string, order: Order)
    requires Within(s.pending, s.db.pending) && IsOrder(order)
    ensures var s' := Resolve(s, itemID, order).0; Within(s'.pending, s'.db.pending)
  {
    var keep := Unresolvable(s.nets, order(s.nets), itemID);
    forall p
      ensures multiset(Filter(s.pending, keep))[p] <= multiset(s.db.pending)[p]
    {
      FilterCount(s.pending, keep, p);
      assert multiset(s.pending)[p] <= multiset(s.db.pending)[p];
    }
  }
}
