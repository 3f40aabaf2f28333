/**
 * The subnet allocator (src/cm/networkmanager/ipsubnet.cpp).
 */
module IpSubnets {
  import opened Cidr
  import opened Wrappers
  import opened NetPool
  import opened Seqs

  type NetworkID = string

  datatype Subnetwork = Subnetwork(subnet: Subnet, ips: seq<Addr>)

  /** What the allocator holds: the subnets nobody uses, and the free addresses of each used one. */
  datatype IpState = IpState(pool: seq<Subnet>, used: map<NetworkID, Subnetwork>)

  // The operations on values

  function TakeIP(s: IpState, networkID: NetworkID): Option<(Addr, IpState)> {
    if networkID !in s.used || s.used[networkID].ips == [] then None
    else
      var u := s.used[networkID];
      Some((u.ips[0], s.(used := s.used[networkID := u.(ips := u.ips[1..])])))
  }

  function GiveIP(s: IpState, networkID: NetworkID, ip: Addr): IpState {
    if networkID !in s.used then s
    else
      var u := s.used[networkID];
      s.(used := s.used[networkID := u.(ips := u.ips + [ip])])
  }

  ghost predicate Routed(b: Subnet, routes: seq<Route>) {
    exists r | r in routes :: Meets(b, r)
  }

  /** The position of the first subnet that meets no route. */
  ghost function FirstUnrouted(pool: seq<Subnet>, routes: seq<Route>): (i: Option<nat>)
    ensures i.Some? ==> i.value < |pool| && !Routed(pool[i.value], routes)
    ensures i.Some? ==> forall k | 0 <= k < i.value :: Routed(pool[k], routes)
    ensures i.None? ==> forall k | 0 <= k < |pool| :: Routed(pool[k], routes)
  {
    if pool == [] then None
    else if !Routed(pool[0], routes) then Some(0)
    else
      match FirstUnrouted(pool[1..], routes)
      case None => None
      case Some(i) => Some(i + 1)
  }

  ghost function RequestSubnet(s: IpState, networkID: NetworkID, routes: Option<seq<Route>>)
    : Option<(Subnet, IpState)>
  {
    if networkID in s.used then Some((s.used[networkID].subnet, s))
    else if s.pool == [] || routes.None? then None
    else
      match FirstUnrouted(s.pool, routes.value)
      case None => None
      case Some(i) =>
        var u := Subnetwork(s.pool[i], HostAddresses(s.pool[i]));
        Some((s.pool[i], IpState(RemoveAt(s.pool, i), s.used[networkID := u])))
  }

  /**
   * A network that has a subnet keeps it. Otherwise there is one exactly if the routes could be read and some
   * subnet of the pool meets none of them; it is the first such, and comes with all its host addresses.
   */
  lemma RequestedExactly(s: IpState, networkID: NetworkID, routes: Option<seq<Route>>)
    ensures var r := RequestSubnet(s, networkID, routes);
            if networkID in s.used then r == Some((s.used[networkID].subnet, s))
            else
              && (r.Some? <==> routes.Some? && exists b | b in s.pool :: !Routed(b, routes.value))
              && (r.Some? ==>
                    exists i | 0 <= i < |s.pool| ::
                      && !Routed(s.pool[i], routes.value) && (forall k | 0 <= k < i :: Routed(s.pool[k], routes.value))
                      && r.value.0 == s.pool[i] && r.value.1.pool == s.pool[..i] + s.pool[i + 1..]
                      && r.value.1.used == s.used[networkID := Subnetwork(s.pool[i], HostAddresses(s.pool[i]))])
  {
    if networkID !in s.used && routes.Some? {
      var i := FirstUnrouted(s.pool, routes.value);
      assert i.Some? ==> s.pool[i.value] in s.pool;
    }
  }

  function ReleasePool(s: IpState, networkID: NetworkID): IpState {
    if networkID !in s.used then s
    else IpState(s.pool + [s.used[networkID].subnet], s.used - {networkID})
  }

  function NotIn(ips: set<Addr>): Addr -> bool {
    a => a !in ips
  }

  function StrikeOff(s: IpState, networkID: NetworkID, ips: set<Addr>): IpState {
    if networkID !in s.used then s
    else
      var u := s.used[networkID];
      s.(used := s.used[networkID := u.(ips := Filter(u.ips, NotIn(ips)))])
  }

  function Claim(s: IpState, networkID: NetworkID, subnet: Subnet): IpState {
    if subnet !in s.pool then s
    else
      IpState(RemoveAt(s.pool, IndexOf(s.pool, subnet)), s.used[networkID := Subnetwork(subnet, HostAddresses(subnet))])
  }

  /** Takes a known subnet out of the pool again and strikes off the addresses in use. */
  function Recover(s: IpState, networkID: NetworkID, subnet: Subnet, ips: set<Addr>): IpState {
    StrikeOff(Claim(s, networkID, subnet), networkID, ips)
  }

  // Conservation

  /** Every subnet of the pool is unused or used by exactly one network, and nothing else is. */
  ghost predicate Conserved(all: seq<Subnet>, s: IpState) {
    && NoDup(s.pool)
    && (forall b :: b in all <==> b in s.pool || exists n | n in s.used :: s.used[n].subnet == b)
    && (forall n | n in s.used :: s.used[n].subnet !in s.pool)
    && (forall n, m | n in s.used && m in s.used && n != m :: s.used[n].subnet != s.used[m].subnet)
  }

  /** Conserved stays true and no other network is touched. */
  ghost predicate StepsTo(all: seq<Subnet>, s: IpState, t: IpState, networkID: NetworkID) {
    && Conserved(all, t)
    && (forall n | n != networkID :: (n in s.used <==> n in t.used) && (n in s.used ==> s.used[n] == t.used[n]))
  }

  lemma ConservedAfterTaking(all: seq<Subnet>, s: IpState, i: nat, networkID: NetworkID, ips: seq<Addr>)
    requires Conserved(all, s) && i < |s.pool| && networkID !in s.used
    ensures StepsTo(all, s, IpState(RemoveAt(s.pool, i), s.used[networkID := Subnetwork(s.pool[i], ips)]), networkID)
  {
    RemoveAtMember(s.pool, i);
    var t := IpState(RemoveAt(s.pool, i), s.used[networkID := Subnetwork(s.pool[i], ips)]);
    forall b
      ensures b in all <==> b in t.pool || exists n | n in t.used :: t.used[n].subnet == b
    {
      if b == s.pool[i] {
        assert t.used[networkID].subnet == b;
      }
      if n :| n in s.used && s.used[n].subnet == b {
        assert t.used[n].subnet == b;
      }
    }
  }

  lemma ConservedAfterUpdate(all: seq<Subnet>, s: IpState, networkID: NetworkID, ips: seq<Addr>)
    requires Conserved(all, s) && networkID in s.used
    ensures StepsTo(all, s, s.(used := s.used[networkID := s.used[networkID].(ips := ips)]), networkID)
  {
    var t := s.(used := s.used[networkID := s.used[networkID].(ips := ips)]);
    forall b
      ensures b in all <==> b in t.pool || exists n | n in t.used :: t.used[n].subnet == b
    {
      if n :| n in s.used && s.used[n].subnet == b {
        assert t.used[n].subnet == b;
      }
    }
  }

  lemma TakeIPConserves(all: seq<Subnet>, s: IpState, networkID: NetworkID)
    requires Conserved(all, s)
    ensures TakeIP(s, networkID).Some? ==> StepsTo(all, s, TakeIP(s, networkID).value.1, networkID)
  {
    if TakeIP(s, networkID).Some? {
      ConservedAfterUpdate(all, s, networkID, s.used[networkID].ips[1..]);
    }
  }

  lemma GiveIPConserves(all: seq<Subnet>, s: IpState, networkID: NetworkID, ip: Addr)
    requires Conserved(all, s)
    ensures StepsTo(all, s, GiveIP(s, networkID, ip), networkID)
  {
    if networkID in s.used {
      ConservedAfterUpdate(all, s, networkID, s.used[networkID].ips + [ip]);
    }
  }

  lemma RequestConserves(all: seq<Subnet>, s: IpState, networkID: NetworkID, routes: Option<seq<Route>>)
    requires Conserved(all, s)
    ensures RequestSubnet(s, networkID, routes).Some? ==>
              StepsTo(all, s, RequestSubnet(s, networkID, routes).value.1, networkID)
  {
    if networkID !in s.used && routes.Some? {
      var i := FirstUnrouted(s.pool, routes.value);
      if i.Some? {
        ConservedAfterTaking(all, s, i.value, networkID, HostAddresses(s.pool[i.value]));
      }
    }
  }

  lemma ReleaseConserves(all: seq<Subnet>, s: IpState, networkID: NetworkID)
    requires Conserved(all, s)
    ensures StepsTo(all, s, ReleasePool(s, networkID), networkID)
  {
    if networkID in s.used {
      var t := ReleasePool(s, networkID);
      forall b
        ensures b in all <==> b in t.pool || exists n | n in t.used :: t.used[n].subnet == b
      {
        assert b in t.pool <==> b in s.pool || b == s.used[networkID].subnet;
        if n :| n in s.used && s.used[n].subnet == b && n != networkID {
          assert t.used[n].subnet == b;
        }
      }
    }
  }

  lemma RecoverConserves(all: seq<Subnet>, s: IpState, networkID: NetworkID, subnet: Subnet, ips: set<Addr>)
    requires Conserved(all, s) && !(networkID in s.used && subnet in s.pool)
    ensures StepsTo(all, s, Recover(s, networkID, subnet, ips), networkID)
  {
    if subnet in s.pool {
      ConservedAfterTaking(all, s, IndexOf(s.pool, subnet), networkID, HostAddresses(subnet));
      ConservedAfterUpdate(all, Claim(s, networkID, subnet), networkID, Filter(HostAddresses(subnet), NotIn(ips)));
    } else if networkID in s.used {
      ConservedAfterUpdate(all, s, networkID, Filter(s.used[networkID].ips, NotIn(ips)));
    }
  }

  /** A second subnet for a network overwrites its first one, which is lost. */
  lemma RecoverLoses(all: seq<Subnet>, s: IpState, networkID: NetworkID, subnet: Subnet, ips: set<Addr>)
    requires Conserved(all, s) && networkID in s.used && subnet in s.pool
    ensures !Conserved(all, Recover(s, networkID, subnet, ips))
  {
    var t, lost := Recover(s, networkID, subnet, ips), s.used[networkID].subnet;
    assert lost in all;
    RemoveAtMember(s.pool, IndexOf(s.pool, subnet));
    assert lost !in t.pool && t.used[networkID].subnet != lost;
    assert forall n | n in t.used && n != networkID :: t.used[n] == s.used[n];
  }

  /** Any order of the operations, from the full pool on. */
  datatype Op =
    | Take(networkID: NetworkID)
    | Give(networkID: NetworkID, ip: Addr)
    | Request(networkID: NetworkID, routes: Option<seq<Route>>)
    | Release(networkID: NetworkID)
    | Recovery(networkID: NetworkID, subnet: Subnet, ips: set<Addr>)

  ghost function Apply(s: IpState, op: Op): IpState {
    match op
    case Take(n) => if TakeIP(s, n).Some? then TakeIP(s, n).value.1 else s
    case Give(n, ip) => GiveIP(s, n, ip)
    case Request(n, routes) => if RequestSubnet(s, n, routes).Some? then RequestSubnet(s, n, routes).value.1 else s
    case Release(n) => ReleasePool(s, n)
    case Recovery(n, subnet, ips) => Recover(s, n, subnet, ips)
  }

  ghost function Run(s: IpState, ops: seq<Op>): IpState {
    if ops == [] then s else Apply(Run(s, ops[..|ops| - 1]), ops[|ops| - 1])
  }

  /** The operation gives a network a second subnet. */
  ghost predicate Overwrites(s: IpState, op: Op) {
    op.Recovery? && op.networkID in s.used && op.subnet in s.pool
  }

  lemma ApplyConservesIff(all: seq<Subnet>, s: IpState, op: Op)
    requires Conserved(all, s)
    ensures Conserved(all, Apply(s, op)) <==> !Overwrites(s, op)
  {
    match op
    case Take(n) => TakeIPConserves(all, s, n);
    case Give(n, ip) => GiveIPConserves(all, s, n, ip);
    case Request(n, routes) => RequestConserves(all, s, n, routes);
    case Release(n) => ReleaseConserves(all, s, n);
    case Recovery(n, subnet, ips) =>
      if Overwrites(s, op) {
        RecoverLoses(all, s, n, subnet, ips);
      } else {
        RecoverConserves(all, s, n, subnet, ips);
      }
  }

  lemma ConservedAtStart(all: seq<Subnet>)
    requires PairwiseDisjoint(all)
    ensures Conserved(all, IpState(all, map[]))
  {
    forall i, j | 0 <= i < j < |all|
      ensures all[i] != all[j]
    {
      assert NetworkContainsIP(all[i], all[i].base);
    }
  }

  lemma {:induction false} ConservedPrefix(all: seq<Subnet>, ops: seq<Op>, i: nat)
    requires PairwiseDisjoint(all) && i <= |ops|
    requires forall k | 0 <= k < i :: !Overwrites(Run(IpState(all, map[]), ops[..k]), ops[k])
    ensures Conserved(all, Run(IpState(all, map[]), ops[..i]))
  {
    if i == 0 {
      ConservedAtStart(all);
    } else {
      ConservedPrefix(all, ops, i - 1);
      assert ops[..i][..i - 1] == ops[..i - 1];
      ApplyConservesIff(all, Run(IpState(all, map[]), ops[..i - 1]), ops[i - 1]);
    }
  }

  /** Subnets are neither lost nor duplicated, at any point of a run that gives no network a second subnet. */
  lemma RunConservesIff(all: seq<Subnet>, ops: seq<Op>)
    requires PairwiseDisjoint(all)
    ensures (forall i | 0 <= i <= |ops| :: Conserved(all, Run(IpState(all, map[]), ops[..i]))) <==>
            forall k | 0 <= k < |ops| :: !Overwrites(Run(IpState(all, map[]), ops[..k]), ops[k])
  {
    var s0 := IpState(all, map[]);
    if forall k | 0 <= k < |ops| :: !Overwrites(Run(s0, ops[..k]), ops[k]) {
      forall i | 0 <= i <= |ops|
        ensures Conserved(all, Run(s0, ops[..i]))
      {
        ConservedPrefix(all, ops, i);
      }
    }
    if forall i | 0 <= i <= |ops| :: Conserved(all, Run(s0, ops[..i])) {
      forall k | 0 <= k < |ops|
        ensures !Overwrites(Run(s0, ops[..k]), ops[k])
      {
        assert Conserved(all, Run(s0, ops[..k])) && Conserved(all, Run(s0, ops[..k + 1]));
        assert ops[..k + 1][..k] == ops[..k];
        ApplyConservesIff(all, Run(s0, ops[..k]), ops[k]);
      }
    }
  }

  /** Whatever was requested and released, two networks never share an address. */
  lemma NetworksShareNoAddress(all: seq<Subnet>, s: IpState, n: NetworkID, m: NetworkID, a: Addr)
    requires PairwiseDisjoint(all) && Conserved(all, s) && n in s.used && m in s.used && n != m
    ensures !(NetworkContainsIP(s.used[n].subnet, a) && NetworkContainsIP(s.used[m].subnet, a))
    ensures !(HostAddress(s.used[n].subnet, a) && HostAddress(s.used[m].subnet, a))
  {
    var b, c := s.used[n].subnet, s.used[m].subnet;
    assert b in all && c in all;
    var i :| 0 <= i < |all| && all[i] == b;
    var j :| 0 <= j < |all| && all[j] == c;
    assert !ShareAddress(all[i], all[j]) || !ShareAddress(all[j], all[i]);
    HostAddressesComplete(b);
    HostAddressesComplete(c);
  }

  /** A route list as the kernel reports it: default routes carry no destination. */
  predicate ValidRoutes(routes: Option<seq<Route>>) {
    routes.Some? ==> forall r | r in routes.value :: r.destination.Some? ==> 1 <= r.destination.value.prefix
  }

  lemma StrikeOffNothing(s: IpState, networkID: NetworkID)
    ensures StrikeOff(s, networkID, {}) == s
  {
    if networkID in s.used {
      FilterAll(s.used[networkID].ips, NotIn({}));
      assert StrikeOff(s, networkID, {}).used == s.used;
    }
  }

  lemma {:induction false} FilterTwice(ips: seq<Addr>, dropped: set<Addr>, a: Addr)
    ensures Filter(Filter(ips, NotIn(dropped)), NotIn({a})) == Filter(ips, NotIn(dropped + {a}))
  {
    if ips != [] {
      FilterTwice(ips[1..], dropped, a);
    }
  }

  lemma RecoveredAddresses(subnet: Subnet, ips: set<Addr>)
    ensures forall a: Addr :: a in Filter(HostAddresses(subnet), NotIn(ips)) <==> HostAddress(subnet, a) && a !in ips
  {
    HostAddressesComplete(subnet);
    forall a: Addr
      ensures a in Filter(HostAddresses(subnet), NotIn(ips)) <==> HostAddress(subnet, a) && a !in ips
    {
      FilterMember(HostAddresses(subnet), NotIn(ips), a);
    }
  }

  class IpSubnet {
    var predefinedPrivateNetworks: seq<Subnet>
    var usedIPSubnets: map<NetworkID, Subnetwork>

    function Model(): IpState
      reads this
    {
      IpState(predefinedPrivateNetworks, usedIPSubnets)
    }

    constructor ()
      ensures Model() == IpState([], map[])
    {
      predefinedPrivateNetworks, usedIPSubnets := [], map[];
    }

    method Init()
      modifies this
      ensures Model() == old(Model()).(pool := PrivatePool())
    {
      NetPoolsValue();
      forall k | 0 <= k < |NET_POOLS|
        ensures 1 <= NET_POOLS[k].network.prefix
      {
      }
      var pools := GetNetPools(NET_POOLS);
      predefinedPrivateNetworks := pools.value;
    }

    method FindUnusedIPSubnet(routes: Option<seq<Route>>) returns (subnet: Option<Subnet>)
      requires ValidRoutes(routes)
      modifies this`predefinedPrivateNetworks
      ensures routes.None? ==> subnet.None? && predefinedPrivateNetworks == old(predefinedPrivateNetworks)
      ensures routes.Some? ==>
        match FirstUnrouted(old(predefinedPrivateNetworks), routes.value)
        case None => subnet.None? && predefinedPrivateNetworks == old(predefinedPrivateNetworks)
        case Some(i) => subnet == Some(old(predefinedPrivateNetworks)[i]) &&
                        predefinedPrivateNetworks == RemoveAt(old(predefinedPrivateNetworks), i)
    {
      if routes.None? {
        return None;
      }
      ghost var first := FirstUnrouted(predefinedPrivateNetworks, routes.value);
      for i := 0 to |predefinedPrivateNetworks|
        invariant predefinedPrivateNetworks == old(predefinedPrivateNetworks)
        invariant forall k | 0 <= k < i :: Routed(predefinedPrivateNetworks[k], routes.value)
      {
        var overlaps := CheckRouteOverlaps(predefinedPrivateNetworks[i], routes.value);
        if !overlaps {
          assert !Routed(predefinedPrivateNetworks[i], routes.value);
          assert first == Some(i);
          subnet := Some(predefinedPrivateNetworks[i]);
          predefinedPrivateNetworks := RemoveAt(predefinedPrivateNetworks, i);
          return;
        }
      }
      return None;
    }

    method RequestIPNetPool(networkID: NetworkID, routes: Option<seq<Route>>) returns (subnet: Option<Subnet>)
      requires ValidRoutes(routes) && networkID !in usedIPSubnets
      modifies this
      ensures match RequestSubnet(old(Model()), networkID, routes)
              case None => subnet.None? && Model() == old(Model())
              case Some((b, s)) => subnet == Some(b) && Model() == s
    {
      if predefinedPrivateNetworks == [] {
        return None;
      }
      subnet := FindUnusedIPSubnet(routes);
      if subnet.Some? {
        var generated := GenerateSubnetIPs(subnet.value);
        usedIPSubnets := usedIPSubnets[networkID := Subnetwork(subnet.value, generated.value)];
      }
    }

    method GetAvailableSubnet(networkID: NetworkID, routes: Option<seq<Route>>) returns (subnet: Option<Subnet>)
      requires ValidRoutes(routes)
      modifies this
      ensures match RequestSubnet(old(Model()), networkID, routes)
              case None => subnet.None? && Model() == old(Model())
              case Some((b, s)) => subnet == Some(b) && Model() == s
    {
      if networkID !in usedIPSubnets {
        subnet := RequestIPNetPool(networkID, routes);
      } else {
        subnet := Some(usedIPSubnets[networkID].subnet);
      }
    }

    method GetAvailableIP(networkID: NetworkID) returns (ip: Option<Addr>)
      modifies this
      ensures match TakeIP(old(Model()), networkID)
              case None => ip.None? && Model() == old(Model())
              case Some((a, s)) => ip == Some(a) && Model() == s
      ensures ip.Some? <==> networkID in old(usedIPSubnets) && old(usedIPSubnets)[networkID].ips != []
      ensures ip.Some? ==>
                var u := old(usedIPSubnets)[networkID];
                && ip.value == u.ips[0]
                && usedIPSubnets == old(usedIPSubnets)[networkID := Subnetwork(u.subnet, u.ips[1..])]
      ensures ip.None? ==> usedIPSubnets == old(usedIPSubnets)
      ensures predefinedPrivateNetworks == old(predefinedPrivateNetworks)
    {
      if networkID !in usedIPSubnets || usedIPSubnets[networkID].ips == [] {
        return None;
      }
      var u := usedIPSubnets[networkID];
      ip := Some(u.ips[0]);
      usedIPSubnets := usedIPSubnets[networkID := u.(ips := u.ips[1..])];
    }

    method ReleaseIPToSubnet(networkID: NetworkID, ip: Addr)
      modifies this
      ensures Model() == GiveIP(old(Model()), networkID, ip)
      ensures predefinedPrivateNetworks == old(predefinedPrivateNetworks)
      ensures if networkID in old(usedIPSubnets) then
                var u := old(usedIPSubnets)[networkID];
                usedIPSubnets == old(usedIPSubnets)[networkID := Subnetwork(u.subnet, u.ips + [ip])]
              else usedIPSubnets == old(usedIPSubnets)
    {
      if networkID !in usedIPSubnets {
        return;
      }
      var u := usedIPSubnets[networkID];
      usedIPSubnets := usedIPSubnets[networkID := u.(ips := u.ips + [ip])];
    }

    method ReleaseIPNetPool(networkID: NetworkID)
      modifies this
      ensures Model() == ReleasePool(old(Model()), networkID)
      ensures usedIPSubnets == old(usedIPSubnets) - {networkID}
      ensures predefinedPrivateNetworks ==
              if networkID in old(usedIPSubnets)
              then old(predefinedPrivateNetworks) + [old(usedIPSubnets)[networkID].subnet]
              else old(predefinedPrivateNetworks)
    {
      if networkID !in usedIPSubnets {
        return;
      }
      predefinedPrivateNetworks := predefinedPrivateNetworks + [usedIPSubnets[networkID].subnet];
      usedIPSubnets := usedIPSubnets - {networkID};
    }

    method RemoveAllocatedSubnet(networkID: NetworkID, subnet: Subnet, ips: seq<Addr>)
      modifies this
      ensures Model() == Recover(old(Model()), networkID, subnet, Elements(ips))
      ensures subnet in old(predefinedPrivateNetworks) ==>
                && multiset(predefinedPrivateNetworks) == multiset(old(predefinedPrivateNetworks)) - multiset{subnet}
                && networkID in usedIPSubnets && usedIPSubnets[networkID].subnet == subnet
                && (forall a :: a in usedIPSubnets[networkID].ips <==> HostAddress(subnet, a) && a !in ips)
      ensures subnet !in old(predefinedPrivateNetworks) ==>
                && predefinedPrivateNetworks == old(predefinedPrivateNetworks)
                && (networkID in usedIPSubnets <==> networkID in old(usedIPSubnets))
                && (networkID in usedIPSubnets ==>
                      var (u, u') := (old(usedIPSubnets)[networkID], usedIPSubnets[networkID]);
                      u'.subnet == u.subnet && forall a :: a in u'.ips <==> a in u.ips && a !in ips)
      ensures forall n | n != networkID ::
                && (n in usedIPSubnets <==> n in old(usedIPSubnets))
                && (n in usedIPSubnets ==> usedIPSubnets[n] == old(usedIPSubnets)[n])
    {
      if subnet in predefinedPrivateNetworks {
        var generated := GenerateSubnetIPs(subnet);
        usedIPSubnets := usedIPSubnets[networkID := Subnetwork(subnet, generated.value)];
        predefinedPrivateNetworks :=
          RemoveAt(predefinedPrivateNetworks, IndexOf(predefinedPrivateNetworks, subnet));
      }
      ghost var claimed := Model();
      StrikeOffNothing(claimed, networkID);
      assert Elements(ips[..0]) == {};
      for i := 0 to |ips|
        invariant Model() == StrikeOff(claimed, networkID, Elements(ips[..i]))
      {
        assert Elements(ips[..i]) + {ips[i]} == Elements(ips[..i + 1]);
        if networkID !in usedIPSubnets {
          continue;
        }
        FilterTwice(claimed.used[networkID].ips, Elements(ips[..i]), ips[i]);
        var u := usedIPSubnets[networkID];
        usedIPSubnets := usedIPSubnets[networkID := u.(ips := Filter(u.ips, NotIn({ips[i]})))];
      }
      assert ips[..|ips|] == ips;
      if subnet in old(predefinedPrivateNetworks) {
        RemoveAtCount(old(predefinedPrivateNetworks), IndexOf(old(predefinedPrivateNetworks), subnet));
        RecoveredAddresses(subnet, Elements(ips));
      } else if networkID in usedIPSubnets {
        forall a: Addr
          ensures a in usedIPSubnets[networkID].ips <==> a in old(usedIPSubnets)[networkID].ips && a !in ips
        {
          FilterMember(old(usedIPSubnets)[networkID].ips, NotIn(Elements(ips)), a);
        }
      }
    }
  }
}
