/**
 * What an allocation gives and what its errors take back
 * (AllocateInstanceNetwork in src/cm/networkmanager/networkmanager.cpp).
 */
module NetworkAllocation {
  import opened Cidr
  import opened IpSubnets
  import opened NetworkTypes
  import opened FirewallRules
  import opened NetworkSpec
  import opened NetworkInvariant
  import opened NetworkSteps
  import opened NetworkNames
  import opened NetworkAddresses

  // Errors

  /** The next address of a network has no host names, so adding some can be undone. */
  lemma NextAddressUnnamed(s: State, n: NetworkID, wanted: seq<string>)
    requires Apportioned(s) && NamesOk(s.nets, s.names) && TakeIP(s.ip, n).Some?
    ensures var ip := TakeIP(s.ip, n).value.0;
            ip !in s.names && forall names | NamesAfterFailure(s.names, ip, wanted, names) :: names == s.names
  {
    var ip := TakeIP(s.ip, n).value.0;
    FreeAddressUnnamed(s, n, ip);
    AddNamesUndone(s.names, ip, wanted);
    assert s.names - {ip} == s.names;
  }

  /** Rolling back is exact: but for the rotation of the free list nothing has changed. */
  lemma InstallRollsBack(s: State, k: Slot, dnsServers: seq<string>, req: Request, env: Env)
    requires Apportioned(s) && NamesOk(s.nets, s.names) && IsOrder(env.order)
    requires HasHost(s.nets, HostKey(k.networkID, k.nodeID)) && !Held(s.nets, k) && TakeIP(s.ip, k.networkID).Some?
    ensures var (ip, ips) := TakeIP(s.ip, k.networkID).value;
            var (s', r) := Install(s.(ip := ips), k, ip, dnsServers, req, env);
            r.Failure? ==> s' == s.(ip := Rotated(s.ip, k.networkID))
  {
    var (ip, ips) := TakeIP(s.ip, k.networkID).value;
    NextAddressUnnamed(s, k.networkID, req.hostNames);
    if Install(s.(ip := ips), k, ip, dnsServers, req, env).1.Failure? {
      InstallFailed(s.(ip := ips), k, ip, dnsServers, req, env);
    }
  }

  /** The error cases of a new instance leave everything as it was, but for the rotated free list. */
  lemma AllocateRollsBack(s: State, k: Slot, req: Request, env: Env)
    requires Apportioned(s) && NamesOk(s.nets, s.names) && IsOrder(env.order)
    requires !Held(s.nets, k) && !Migrates(s, k) && Allocate(s, k, req, env).1.Failure?
    ensures Allocate(s, k, req, env).0 == s ||
            (TakeIP(s.ip, k.networkID).Some? &&
             Allocate(s, k, req, env).0 == s.(ip := Rotated(s.ip, k.networkID)))
  {
    var j := AllocateCases(s, k, req, env);
    if HasHost(s.nets, HostKey(k.networkID, k.nodeID)) && TakeIP(s.ip, k.networkID).Some? {
      InstallRollsBack(s, k, [env.dnsIP], req, env);
    }
  }

  /** An error for an instance that is there already restores its host names; no entry counts as no names. */
  lemma RefreshRestoresNames(s: State, k: Slot, req: Request, env: Env)
    requires NamesUnique(s.names) && IsOrder(env.order) && Held(s.nets, k)
    requires Allocate(s, k, req, env).1.Failure?
    ensures var s' := Allocate(s, k, req, env).0;
            s'.nets == s.nets && s'.ip == s.ip && forall a :: NamesAt(s'.names, a) == NamesAt(s.names, a)
  {
    var unresolved := RefreshCases(s, k, req, env);
    AddNamesReset(s.names, At(s.nets, k).ip, req.hostNames);
  }

  // Success

  /** The instance is held with the returned address, and its names are exactly the requested ones. */
  ghost predicate Given(s: State, k: Slot, req: Request, result: Allocation) {
    && Held(s.nets, k) && At(s.nets, k).ip == result.ip
    && NamesAt(s.names, result.ip) == req.hostNames
  }

  lemma RefreshGives(s: State, k: Slot, req: Request, env: Env)
    requires IsOrder(env.order) && Held(s.nets, k) && Refresh(s, k, req, env).1.Refreshed?
    ensures var (s', r) := Refresh(s, k, req, env); Given(s', k, req, r.result)
  {
    AddNamesGives(s.names - {At(s.nets, k).ip}, At(s.nets, k).ip, req.hostNames);
  }

  lemma InstallGives(s: State, k: Slot, ip: Addr, dnsServers: seq<string>, req: Request, env: Env)
    requires HasHost(s.nets, HostKey(k.networkID, k.nodeID)) && IsOrder(env.order) && ip !in s.names
    requires Install(s, k, ip, dnsServers, req, env).1.Allocated?
    ensures var (s', r) := Install(s, k, ip, dnsServers, req, env); Given(s', k, req, r.result)
  {
    InstallAddress(s, k, ip, dnsServers, req, env);
    AddNamesGives(s.names, ip, req.hostNames);
  }

  lemma MoveGives(s: State, k: Slot, j: Slot, req: Request, env: Env)
    requires HasHost(s.nets, HostKey(k.networkID, k.nodeID)) && Held(s.nets, j) && IsOrder(env.order)
    requires Matches(j, k, Elsewhere) && !Migrate(s, k, j, req, env).1.Failure?
    ensures var (s', r) := Migrate(s, k, j, req, env); Given(s', k, req, r.result)
  {
    MigrateCases(s, k, j, req, env);
    InstallGives(Unplaced(s, k, j, env.answers.forgetOk), k, At(s.nets, j).ip, At(s.nets, j).dnsServers, req, env);
  }

  /** Whichever branch succeeds, the instance has its address and exactly the requested names. */
  lemma AllocateGives(s: State, k: Slot, req: Request, env: Env)
    requires Apportioned(s) && NamesOk(s.nets, s.names) && IsOrder(env.order)
    requires !Allocate(s, k, req, env).1.Failure?
    ensures var (s', r) := Allocate(s, k, req, env); Given(s', k, req, r.result)
  {
    var j := AllocateCases(s, k, req, env);
    if Held(s.nets, k) {
      RefreshGives(s, k, req, env);
    } else if j.Some? {
      MoveGives(s, k, j.value, req, env);
    } else {
      var (ip, ips) := TakeIP(s.ip, k.networkID).value;
      NextAddressUnnamed(s, k.networkID, req.hostNames);
      InstallGives(s.(ip := ips), k, ip, [env.dnsIP], req, env);
    }
  }
}
