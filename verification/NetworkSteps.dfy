/**
 * What the locked sections do to the state, whatever holds of it.
 */
module NetworkSteps {
  import opened Cidr
  import opened Wrappers
  import opened Seqs
  import opened IpSubnets
  import opened NetworkTypes
  import opened NetworkDatabase
  import opened FirewallRules
  import opened NetworkSpec
  import opened NetworkInvariant

  // Allocation

  /** What an installation that succeeds does to the state. */
  lemma InstallCases(s: State, k: Slot, ip: Addr, dnsServers: seq<string>, req: Request, env: Env)
    returns (x: Instance, unresolved: seq<Connection>)
    requires HasHost(s.nets, HostKey(k.networkID, k.nodeID)) && IsOrder(env.order)
    requires Install(s, k, ip, dnsServers, req, env).1.Allocated?
    ensures SlotOf(x) == k && x.ip == ip && InsertInstance(s.db, x, true).1
    ensures var s1 := s.(nets := PutInstance(s.nets, k, x), names := AddNames(s.names, ip, req.hostNames).0,
                         db := InsertInstance(s.db, x, true).0);
            Install(s, k, ip, dnsServers, req, env).0
            == StorePending(s1, k, ip, s.nets[k.networkID].network.subnet, unresolved, env.answers.addOk)
  {
    x := Instance(k.networkID, k.nodeID, k.ident, ip, req.exposedPorts.value, dnsServers);
    var subnet := s.nets[k.networkID].network.subnet;
    unresolved := Register(s.(nets := PutInstance(s.nets, k, x)), x, subnet, req, env).1.value.unresolved;
  }

  /** The names that a failed installation leaves. */
  ghost predicate NamesAfterFailure(names: HostNames, ip: Addr, wanted: seq<string>, names': HostNames) {
    names' == names || names' == names - {ip} || names' == AddNames(names, ip, wanted).0 - {ip}
  }

  /** An installation that fails takes everything back but names of the address, and gives the address back. */
  lemma InstallFailed(s: State, k: Slot, ip: Addr, dnsServers: seq<string>, req: Request, env: Env)
    requires HasHost(s.nets, HostKey(k.networkID, k.nodeID)) && !Held(s.nets, k) && IsOrder(env.order)
    requires Install(s, k, ip, dnsServers, req, env).1.Failure?
    ensures var s' := Install(s, k, ip, dnsServers, req, env).0;
            && s' == s.(ip := GiveIP(s.ip, k.networkID, ip), names := s'.names)
            && NamesAfterFailure(s.names, ip, req.hostNames, s'.names)
  {
    if req.exposedPorts.Some? {
      DropAfterPut(s.nets, k, Instance(k.networkID, k.nodeID, k.ident, ip, req.exposedPorts.value, dnsServers));
    }
  }

  lemma InstallAddress(s: State, k: Slot, ip: Addr, dnsServers: seq<string>, req: Request, env: Env)
    requires HasHost(s.nets, HostKey(k.networkID, k.nodeID)) && IsOrder(env.order)
    ensures var (s', r) := Install(s, k, ip, dnsServers, req, env);
            if r.Failure? then s'.ip == GiveIP(s.ip, k.networkID, ip)
            else s'.ip == s.ip && Held(s'.nets, k) && At(s'.nets, k).ip == ip
  {
  }

  /** What a refresh can do to the state. */
  lemma RefreshCases(s: State, k: Slot, req: Request, env: Env) returns (unresolved: seq<Connection>)
    requires Held(s.nets, k) && IsOrder(env.order)
    ensures var (ip, subnet) := (At(s.nets, k).ip, s.nets[k.networkID].network.subnet);
            var (s', r) := Refresh(s, k, req, env);
            var s0 := ForgetRequester(s, k.ident, env.answers.forgetOk);
            var s1 := StorePending(s0, k, ip, subnet, unresolved, env.answers.addOk);
            var names := AddNames(s.names - {ip}, ip, req.hostNames).0;
            || (r.Failure? && (s' == s || s' == s1.(names := names[ip := NamesAt(s.names, ip)])))
            || (r.Refreshed? && s' == s1.(names := names))
  {
    var (ip, subnet) := (At(s.nets, k).ip, s.nets[k.networkID].network.subnet);
    var prepared := Prepare(s.nets, env.order(s.nets), subnet, ip, req.allowed, [], []);
    unresolved := if prepared.Some? then prepared.value.1 else [];
  }

  /** The instance is held on another node of the network: the branch that moves it. */
  ghost predicate Migrates(s: State, k: Slot) {
    && HasHost(s.nets, HostKey(k.networkID, k.nodeID))
    && !Held(s.nets, k)
    && exists j :: Held(s.nets, j) && Matches(j, k, Elsewhere)
  }

  /** A move up to the point where the new node gets the instance. */
  ghost function Unplaced(s: State, k: Slot, j: Slot, forgetOk: InstanceIdent -> bool): State
    requires Held(s.nets, j)
  {
    var ip := At(s.nets, j).ip;
    ForgetRequester(s.(ip := GiveIP(s.ip, k.networkID, ip), names := s.names - {ip},
                       db := DeleteInstance(s.db, k.ident, true).0, nets := DropInstance(s.nets, j)), k.ident,
                    forgetOk)
  }

  lemma MigrateCases(s: State, k: Slot, j: Slot, req: Request, env: Env)
    requires HasHost(s.nets, HostKey(k.networkID, k.nodeID)) && Held(s.nets, j) && IsOrder(env.order)
    requires Matches(j, k, Elsewhere)
    ensures var (x, r) := (At(s.nets, j), Migrate(s, k, j, req, env));
            if DeleteInstance(s.db, k.ident, env.removeInstanceOk).1 then
              var s1 := Unplaced(s, k, j, env.answers.forgetOk);
              HasHost(s1.nets, HostKey(k.networkID, k.nodeID)) &&
              r == Install(s1, k, x.ip, x.dnsServers, req, env)
            else r == (s.(ip := GiveIP(s.ip, k.networkID, x.ip), names := s.names - {x.ip}), Failure)
  {
  }

  /** Which branch an allocation takes. */
  lemma AllocateCases(s: State, k: Slot, req: Request, env: Env) returns (j: Option<Slot>)
    requires IsOrder(env.order)
    ensures j.Some? <==> Migrates(s, k)
    ensures j.Some? ==> Held(s.nets, j.value) && Matches(j.value, k, Elsewhere)
    ensures Allocate(s, k, req, env) ==
            if !HasHost(s.nets, HostKey(k.networkID, k.nodeID)) then (s, Failure)
            else if Held(s.nets, k) then Refresh(s, k, req, env)
            else if j.Some? then Migrate(s, k, j.value, req, env)
            else
              match TakeIP(s.ip, k.networkID)
              case None => (s, Failure)
              case Some((ip, ips)) => Install(s.(ip := ips), k, ip, [env.dnsIP], req, env)
  {
    assert Enumerates(env.order(s.nets), s.nets);
    j := if HasHost(s.nets, HostKey(k.networkID, k.nodeID)) && !Held(s.nets, k)
         then FindSlot(env.order(s.nets), k, Elsewhere) else None;
  }

  // Release of an instance

  ghost predicate HeldOnNode(s: State, ident: InstanceIdent, nodeID: NodeID) {
    exists k :: Held(s.nets, k) && k.nodeID == nodeID && k.ident == ident
  }

  lemma ReleaseCases(s: State, ident: InstanceIdent, nodeID: NodeID, removeOk: bool, forgetOk: InstanceIdent -> bool,
                     order: Order)
    returns (k: Option<Slot>)
    requires IsOrder(order)
    ensures k.Some? <==> HeldOnNode(s, ident, nodeID)
    ensures k.Some? ==> Held(s.nets, k.value) && k.value.nodeID == nodeID && k.value.ident == ident
    ensures ReleaseInstance(s, ident, nodeID, removeOk, forgetOk, order) ==
            if k.Some? then ReleaseSlot(s, k.value, removeOk, forgetOk) else (s, true)
  {
    assert Enumerates(order(s.nets), s.nets);
    k := FindSlot(order(s.nets), Slot("", nodeID, ident), OnNode);
  }

  // Node networks

  /** The call gets as far as the storage. */
  ghost predicate WritesRow(s: State, networkID: NetworkID, nodeID: NodeID, e: NodeInput) {
    if networkID in s.nets then !HasHost(s.nets, HostKey(networkID, nodeID)) && TakeIP(s.ip, networkID).Some?
    else
      && e.vlanID.Some? && RequestSubnet(s.ip, networkID, e.routes).Some?
      && TakeIP(RequestSubnet(s.ip, networkID, e.routes).value.1, networkID).Some?
  }

  ghost predicate StorageFails(s: State, networkID: NetworkID, e: NodeInput) {
    !e.addHostOk || (networkID !in s.nets && !e.addNetworkOk)
  }

  /** The rows after a new network is written, as far as that goes. */
  function WriteNetwork(db: Tables, network: Network, host: Host, e: NodeInput): (Tables, bool) {
    var (db1, ok) := InsertNetwork(db, network, e.addNetworkOk);
    if ok then InsertHost(db1, network.networkID, host, e.addHostOk) else (db1, false)
  }

  /** What a call that reaches the storage does, whether or not the storage works. */
  lemma GetNodeCases(s: State, networkID: NetworkID, nodeID: NodeID, e: NodeInput)
    returns (host: Host, network: Network)
    requires WritesRow(s, networkID, nodeID, e)
    ensures host.nodeID == nodeID && network.networkID == networkID
    ensures var (s', r) := GetNodeNetworkParams(s, networkID, nodeID, e);
            if networkID in s.nets then
              var (ip, ips) := TakeIP(s.ip, networkID).value;
              var (db, ok) := InsertHost(s.db, networkID, host, e.addHostOk);
              && ip == host.ip && r.Some? == ok
              && s' == s.(ip := ips, nets := PutHost(s.nets, networkID, host), db := db)
            else
              var (subnet, ips) := RequestSubnet(s.ip, networkID, e.routes).value;
              var (ip, ips') := TakeIP(ips, networkID).value;
              var (db, ok) := WriteNetwork(s.db, network, host, e);
              && ip == host.ip && subnet == network.subnet && network.vlanID == e.vlanID.value && r.Some? == ok
              && s' == s.(ip := ips', nets := s.nets[networkID := FirstHost(network, host)], db := db)
  {
    if networkID in s.nets {
      host := Host(nodeID, TakeIP(s.ip, networkID).value.0);
      network := s.nets[networkID].network.(networkID := networkID);
    } else {
      var (subnet, ips) := RequestSubnet(s.ip, networkID, e.routes).value;
      host := Host(nodeID, TakeIP(ips, networkID).value.0);
      network := Network(networkID, subnet, e.vlanID.value);
    }
  }

  ghost predicate VlansDistinct(nets: Nets) {
    forall n, m | n in nets && m in nets && nets[n].network.vlanID == nets[m].network.vlanID :: n == m
  }

  /** The VLAN IDs of the networks stay different exactly when the random number is one that none of them has. */
  lemma VlanIff(s: State, networkID: NetworkID, nodeID: NodeID, e: NodeInput)
    requires VlansDistinct(s.nets) && networkID !in s.nets && WritesRow(s, networkID, nodeID, e)
    ensures VlansDistinct(GetNodeNetworkParams(s, networkID, nodeID, e).0.nets) <==>
            forall n | n in s.nets :: s.nets[n].network.vlanID != e.vlanID.value
  {
    var nets' := GetNodeNetworkParams(s, networkID, nodeID, e).0.nets;
    var host, network := GetNodeCases(s, networkID, nodeID, e);
    assert networkID in nets' && nets'[networkID].network.vlanID == e.vlanID.value;
    assert forall n | n in s.nets :: n in nets' && nets'[n] == s.nets[n];
  }

  // Node release

  /** slots are the instances of the host, each once. */
  ghost predicate ListsHost(slots: seq<Slot>, nets: Nets, h: HostKey) {
    NoDup(slots) && forall k :: k in slots <==> Held(nets, k) && OnHost(h, k)
  }

  lemma SlotsOfHost(nets: Nets, order: seq<Slot>, h: HostKey)
    requires Enumerates(order, nets)
    ensures ListsHost(Filter(order, SlotsOn(h)), nets, h)
  {
    FilteredHeld(order, h, nets);
    FilterNoDup(order, SlotsOn(h));
  }

  /** The instances go first, then the host. */
  lemma ReleaseNodeCases(s: State, h: HostKey, failAt: nat, forgetOk: InstanceIdent -> bool, order: Order)
    returns (slots: seq<Slot>)
    requires IsOrder(order) && HasHost(s.nets, h)
    ensures slots == Filter(order(s.nets), SlotsOn(h)) && ListsHost(slots, s.nets, h)
    ensures var (s1, ok) := ReleaseRows(s, slots, failAt, forgetOk);
            ReleaseNode(s, h, failAt, forgetOk, order) == if ok then RemoveHost(s1, h, failAt, |slots|) else (s1, false)
  {
    slots := Filter(order(s.nets), SlotsOn(h));
    assert Enumerates(order(s.nets), s.nets);
    SlotsOfHost(s.nets, order(s.nets), h);
  }

  function DropAll(nets: Nets, h: HostKey, slots: seq<Slot>): Nets
    requires HasHost(nets, h) && forall k | k in slots :: OnHost(h, k)
    decreases slots
  {
    if slots == [] then nets
    else
      assert OnHost(h, slots[0]);
      DropAll(DropInstance(nets, slots[0]), h, slots[1..])
  }

  /** After dropping the instances of a host, what is left of the host does not depend on them. */
  lemma {:induction false} DropAllOnHost(nets: Nets, h: HostKey, slots: seq<Slot>)
    requires HasHost(nets, h) && forall k | k in slots :: OnHost(h, k)
    ensures var nets' := DropAll(nets, h, slots);
            && HasHost(nets', h) && HostAt(nets', h) == HostAt(nets, h)
            && DropHost(nets', h) == DropHost(nets, h)
            && (forall i :: i in nets'[h.networkID].hosts[h.nodeID].instances <==>
                            i in nets[h.networkID].hosts[h.nodeID].instances &&
                            Slot(h.networkID, h.nodeID, i) !in slots)
    decreases slots
  {
    if slots != [] {
      assert OnHost(h, slots[0]);
      var next := DropInstance(nets, slots[0]);
      assert slots == [slots[0]] + slots[1..];
      assert next[h.networkID].hosts - {h.nodeID} == nets[h.networkID].hosts - {h.nodeID};
      assert DropHost(next, h) == DropHost(nets, h);
      DropAllOnHost(next, h, slots[1..]);
    }
  }

  /** Both states of the maps hold the given instances. */
  ghost predicate HeldAlike(nets: Nets, nets': Nets, slots: seq<Slot>) {
    forall k | k in slots :: Held(nets, k) && Held(nets', k) && At(nets, k) == At(nets', k)
  }

  lemma HeldAlikeNext(nets: Nets, nets': Nets, slots: seq<Slot>)
    requires HeldAlike(nets, nets', slots) && NoDup(slots) && slots != []
    ensures Held(nets', slots[0])
    ensures HeldAlike(nets, DropInstance(nets', slots[0]), slots[1..])
  {
    assert slots[0] in slots;
    LookupAfterDrop(nets', slots[0]);
  }

  /** Freeing a row does not look at the rest of the maps. */
  lemma ReleaseRowAlike(s: State, nets: Nets, k: Slot, forgetOk: InstanceIdent -> bool)
    requires Held(s.nets, k) && Held(nets, k) && At(s.nets, k) == At(nets, k)
    ensures var (r, ok) := ReleaseRow(s, k, true, forgetOk);
            && ok == ReleaseSlot(s.(nets := nets), k, true, forgetOk).1
            && (ok ==> r.(nets := DropInstance(nets, k)) == ReleaseSlot(s.(nets := nets), k, true, forgetOk).0)
  {
  }

  ghost predicate ReleaseKeeps(inv: State -> bool, forgetOk: InstanceIdent -> bool, s: State, k: Slot) {
    inv(s) && Held(s.nets, k) ==>
      ReleaseSlot(s, k, true, forgetOk).1 && inv(ReleaseSlot(s, k, true, forgetOk).0)
  }

  /** inv survives a release. */
  ghost predicate KeptByRelease(inv: State -> bool, forgetOk: InstanceIdent -> bool) {
    forall s, k :: ReleaseKeeps(inv, forgetOk, s, k)
  }

  lemma ReleaseRowKeeps(inv: State -> bool, s: State, nets: Nets, k: Slot, forgetOk: InstanceIdent -> bool)
    requires KeptByRelease(inv, forgetOk) && inv(s.(nets := nets))
    requires Held(s.nets, k) && Held(nets, k) && At(s.nets, k) == At(nets, k)
    ensures var (r, ok) := ReleaseRow(s, k, true, forgetOk); ok && inv(r.(nets := DropInstance(nets, k)))
  {
    assert ReleaseKeeps(inv, forgetOk, s.(nets := nets), k);
    ReleaseRowAlike(s, nets, k, forgetOk);
  }

  /** The loop frees the instances one after the other, as if memory had dropped each at once. */
  lemma {:induction false} ReleaseRowsKeep(inv: State -> bool, s: State, nets: Nets, h: HostKey, slots: seq<Slot>,
                                           failAt: nat, forgetOk: InstanceIdent -> bool)
    requires KeptByRelease(inv, forgetOk) && inv(s.(nets := nets)) && NoDup(slots) && |slots| <= failAt
    requires HasHost(nets, h) && forall k | k in slots :: OnHost(h, k)
    requires HeldAlike(s.nets, nets, slots)
    ensures var (r, ok) := ReleaseRows(s, slots, failAt, forgetOk);
            ok && inv(r.(nets := DropAll(nets, h, slots)))
    decreases slots
  {
    if slots != [] {
      var k := slots[0];
      assert k in slots;
      HeldAlikeNext(s.nets, nets, slots);
      ReleaseRowKeeps(inv, s, nets, k, forgetOk);
      var s1 := ReleaseRow(s, k, true, forgetOk).0;
      ReleaseRowsKeep(inv, s1, DropInstance(nets, k), h, slots[1..], failAt - 1, forgetOk);
    }
  }

  lemma {:induction false} ReleaseRowsFail(s: State, slots: seq<Slot>, failAt: nat, forgetOk: InstanceIdent -> bool)
    requires forall k | k in slots :: Held(s.nets, k)
    requires failAt < |slots|
    ensures !ReleaseRows(s, slots, failAt, forgetOk).1
    decreases slots
  {
    var (s1, ok) := ReleaseRow(s, slots[0], failAt != 0, forgetOk);
    if ok {
      ReleaseRowsFail(s1, slots[1..], failAt - 1, forgetOk);
    }
  }

  /** No storage call fails before the node's own row: nets is memory with the instances gone. */
  lemma ReleaseNodeRows(inv: State -> bool, s: State, h: HostKey, failAt: nat, forgetOk: InstanceIdent -> bool,
                        slots: seq<Slot>) returns (nets: Nets)
    requires KeptByRelease(inv, forgetOk) && inv(s) && HasHost(s.nets, h)
    requires ListsHost(slots, s.nets, h) && |slots| <= failAt
    ensures var (r, ok) := ReleaseRows(s, slots, failAt, forgetOk); ok && inv(r.(nets := nets))
    ensures HasHost(nets, h) && nets[h.networkID].hosts[h.nodeID].instances == map[]
    ensures HostAt(nets, h) == HostAt(s.nets, h) && DropHost(nets, h) == DropHost(s.nets, h)
  {
    assert s.(nets := s.nets) == s;
    ReleaseRowsKeep(inv, s, s.nets, h, slots, failAt, forgetOk);
    DropAllOnHost(s.nets, h, slots);
    nets := DropAll(s.nets, h, slots);
    forall i
      ensures i !in nets[h.networkID].hosts[h.nodeID].instances
    {
      assert Held(s.nets, Slot(h.networkID, h.nodeID, i)) <==> i in s.nets[h.networkID].hosts[h.nodeID].instances;
    }
  }

  lemma RemoveHostAlike(s: State, nets: Nets, h: HostKey, failAt: nat, calls: nat)
    requires HasHost(s.nets, h) && HasHost(nets, h)
    requires HostAt(nets, h) == HostAt(s.nets, h) && DropHost(nets, h) == DropHost(s.nets, h)
    requires DeleteHost(s.db, h, failAt != calls).1
    ensures RemoveHost(s.(nets := nets), h, failAt, calls) == RemoveHost(s, h, failAt, calls)
  {
  }

  ghost predicate LastHost(s: State, h: HostKey)
    requires HasHost(s.nets, h)
  {
    DropHost(s.nets, h)[h.networkID].hosts == map[]
  }

  /** The state after the node's own row and the node are gone. */
  ghost function WithoutHost(s: State, h: HostKey): State
    requires HasHost(s.nets, h)
  {
    s.(db := DeleteHost(s.db, h, true).0, nets := DropHost(s.nets, h),
       dropped := s.dropped[h.networkID := DroppedIn(s.dropped, h.networkID) + {HostAt(s.nets, h).ip}])
  }

  lemma RemoveHostCases(s: State, h: HostKey, failAt: nat, calls: nat)
    requires HasHost(s.nets, h) && DeleteHost(s.db, h, failAt != calls).1
    ensures RemoveHost(s, h, failAt, calls) ==
            if LastHost(s, h) then RemoveNetwork(WithoutHost(s, h), h.networkID, failAt != calls + 1)
            else (WithoutHost(s, h), true)
  {
  }

  /** The storage calls that releasing a node makes. */
  ghost function ReleaseCalls(s: State, h: HostKey, order: Order): nat
    requires HasHost(s.nets, h)
  {
    |Filter(order(s.nets), SlotsOn(h))| + (if LastHost(s, h) then 2 else 1)
  }
}
