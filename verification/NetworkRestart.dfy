/**
 * Starting again from the tables (Init in src/cm/networkmanager/networkmanager.cpp).
 */
module NetworkRestart {
  import opened Cidr
  import opened NetPool
  import opened Seqs
  import opened IpSubnets
  import opened NetworkTypes
  import opened NetworkDatabase
  import opened NetworkSpec
  import opened NetworkInvariant

  // Reading the tables

  lemma SelectedInstances(nets: Nets, db: Tables, h: HostKey)
    requires MirrorInstances(nets, db.instances) && HasHost(nets, h)
    ensures SelectInstances(db, h) == nets[h.networkID].hosts[h.nodeID].instances
  {
    var loaded, held := SelectInstances(db, h), nets[h.networkID].hosts[h.nodeID].instances;
    forall i
      ensures i in loaded <==> i in held
      ensures i in held ==> loaded[i] == held[i]
    {
      var k := Slot(h.networkID, h.nodeID, i);
      if i in held {
        assert Held(nets, k) && SlotOf(At(nets, k)) == k;
      }
      if i in loaded {
        assert Held(nets, SlotOf(db.instances[i]));
      }
    }
  }

  /** Reading gives the nodes with a row, each with all it holds. */
  lemma LoadedNetwork(nets: Nets, db: Tables, n: NetworkID)
    requires TablesOk(nets, db) && n in db.networks
    ensures var ns := LoadNetwork(db, n);
            && ns.network == nets[n].network
            && (forall d :: d in ns.hosts <==> HostKey(n, d) in db.hosts)
            && (forall d | d in ns.hosts :: d in nets[n].hosts && ns.hosts[d] == nets[n].hosts[d])
  {
    var hosts := LoadNetwork(db, n).hosts;
    forall d | d in hosts
      ensures d in nets[n].hosts && hosts[d] == nets[n].hosts[d]
    {
      assert HasHost(nets, HostKey(n, d)) && HostAt(nets, HostKey(n, d)) == db.hosts[HostKey(n, d)];
      SelectedInstances(nets, db, HostKey(n, d));
    }
  }

  ghost predicate NetworksRestricted(nets: Nets, db: Tables, nets': Nets) {
    && nets'.Keys == db.networks.Keys
    && (forall n | n in nets' :: n in nets && nets'[n].network == nets[n].network)
  }

  ghost predicate HostsRestricted(nets: Nets, db: Tables, nets': Nets) {
    && (forall h :: HasHost(nets', h) <==> h in db.hosts)
    && (forall h | HasHost(nets', h) :: HasHost(nets, h) && HostAt(nets', h) == HostAt(nets, h))
  }

  /** What the tables know of memory: the networks and nodes with a row, and all instances. */
  ghost predicate Restriction(nets: Nets, db: Tables, nets': Nets) {
    NetworksRestricted(nets, db, nets') && HostsRestricted(nets, db, nets') && SameInstances(nets, nets')
  }

  lemma LoadedHost(nets: Nets, db: Tables, h: HostKey)
    requires TablesOk(nets, db)
    ensures HasHost(Load(db), h) <==> h in db.hosts
    ensures h in db.hosts ==>
              HasHost(nets, h) && Load(db)[h.networkID].hosts[h.nodeID] == nets[h.networkID].hosts[h.nodeID]
  {
    if h.networkID in db.networks {
      LoadedNetwork(nets, db, h.networkID);
      assert Load(db)[h.networkID] == LoadNetwork(db, h.networkID);
    }
  }

  lemma LoadedInstance(nets: Nets, db: Tables, k: Slot)
    requires TablesOk(nets, db)
    ensures Held(Load(db), k) <==> Held(nets, k)
    ensures Held(nets, k) ==> At(Load(db), k) == At(nets, k)
  {
    LoadedHost(nets, db, HostKey(k.networkID, k.nodeID));
    if Held(nets, k) {
      assert HostKey(db.instances[k.ident].networkID, db.instances[k.ident].nodeID) in db.hosts;
    }
  }

  lemma NetworksLoaded(nets: Nets, db: Tables)
    requires TablesOk(nets, db)
    ensures NetworksRestricted(nets, db, Load(db))
  {
    forall n | n in db.networks
      ensures n in nets && Load(db)[n].network == nets[n].network
    {
      LoadedNetwork(nets, db, n);
    }
  }

  lemma HostsLoaded(nets: Nets, db: Tables)
    requires TablesOk(nets, db)
    ensures HostsRestricted(nets, db, Load(db))
  {
    forall h
      ensures HasHost(Load(db), h) <==> h in db.hosts
      ensures HasHost(Load(db), h) ==> HasHost(nets, h) && HostAt(Load(db), h) == HostAt(nets, h)
    {
      LoadedHost(nets, db, h);
    }
  }

  lemma LoadRestricts(nets: Nets, db: Tables)
    requires TablesOk(nets, db)
    ensures Restriction(nets, db, Load(db))
  {
    NetworksLoaded(nets, db);
    HostsLoaded(nets, db);
    forall k
      ensures Held(Load(db), k) <==> Held(nets, k)
      ensures Held(nets, k) ==> At(Load(db), k) == At(nets, k)
    {
      LoadedInstance(nets, db, k);
    }
  }

  lemma AllHostsLoaded(nets: Nets, db: Tables, n: NetworkID)
    requires RowsComplete(nets, db) && n in nets && n in db.networks
    ensures forall d | d in nets[n].hosts :: HostKey(n, d) in db.hosts
  {
    forall d | d in nets[n].hosts
      ensures HostKey(n, d) in db.hosts
    {
      assert HasHost(nets, HostKey(n, d));
    }
  }

  lemma WholeNetworkLoaded(nets: Nets, db: Tables, n: NetworkID)
    requires Mirror(nets, db) && n in nets
    ensures LoadNetwork(db, n) == nets[n]
  {
    LoadedNetwork(nets, db, n);
    AllHostsLoaded(nets, db, n);
    assert LoadNetwork(db, n).hosts == nets[n].hosts;
  }

  /** Complete tables hold all there is to know about networks, nodes and instances. */
  lemma LoadRestores(nets: Nets, db: Tables)
    requires Mirror(nets, db)
    ensures Load(db) == nets
  {
    forall n | n in nets
      ensures LoadNetwork(db, n) == nets[n]
    {
      WholeNetworkLoaded(nets, db, n);
    }
  }

  // The allocator

  lemma AddressesInUse(ns: NetworkState, a: Addr)
    ensures a in AddressesIn(ns) <==> exists o :: Uses(ns, o, a)
  {
    if a in AddressesIn(ns) {
      if d :| d in ns.hosts && ns.hosts[d].info.ip == a {
        assert Uses(ns, Node(d), a);
      } else {
        var d, i :| d in ns.hosts && i in ns.hosts[d].instances && ns.hosts[d].instances[i].ip == a;
        assert Uses(ns, Inst(d, i), a);
      }
    }
  }

  /** The free list that recovery leaves to a network. */
  ghost function FreeAfterRestart(ns: NetworkState): seq<Addr> {
    Filter(HostAddresses(ns.network.subnet), NotIn(AddressesIn(ns)))
  }

  lemma {:induction false} FilterSame<T>(s: seq<T>, keep: T -> bool, keep': T -> bool)
    requires forall x | x in s :: keep(x) <==> keep'(x)
    ensures Filter(s, keep) == Filter(s, keep')
  {
    if s != [] {
      assert s[0] in s;
      FilterSame(s[1..], keep, keep');
    }
  }

  /** An address of a network is held by a node whose row could not be written. */
  ghost predicate HeldByUnwritten(nets: Nets, db: Tables, n: NetworkID, a: Addr) {
    exists d :: HasHost(nets, HostKey(n, d)) && HostKey(n, d) !in db.hosts && HostAt(nets, HostKey(n, d)).ip == a
  }

  /** The owners of a network that the tables know. */
  lemma RestrictedUses(nets: Nets, db: Tables, nets': Nets, n: NetworkID, o: Owner, a: Addr)
    requires Restriction(nets, db, nets') && n in nets'
    ensures Uses(nets'[n], o, a) <==> Uses(nets[n], o, a) && (o.Node? ==> HostKey(n, o.nodeID) in db.hosts)
  {
    var h := HostKey(n, o.nodeID);
    assert HasHost(nets', h) <==> h in db.hosts;
    if o.Inst? {
      assert Held(nets', Slot(n, o.nodeID, o.ident)) <==> Held(nets, Slot(n, o.nodeID, o.ident));
    }
  }

  lemma FreeAre(ns: NetworkState, a: Addr)
    ensures a in FreeAfterRestart(ns) <==> HostAddress(ns.network.subnet, a) && !exists o :: Uses(ns, o, a)
  {
    HostAddressesComplete(ns.network.subnet);
    FilterMember(HostAddresses(ns.network.subnet), NotIn(AddressesIn(ns)), a);
    AddressesInUse(ns, a);
  }

  /** Whatever is held by one owner only can be partitioned again. */
  lemma PartitionAgain(ns: NetworkState)
    requires forall o, a | Uses(ns, o, a) :: HostAddress(ns.network.subnet, a)
    requires forall o, p, a | Uses(ns, o, a) && Uses(ns, p, a) :: o == p
    ensures Partition(ns, FreeAfterRestart(ns), {})
  {
    var all := HostAddresses(ns.network.subnet);
    HostAddressesComplete(ns.network.subnet);
    assert NoDup(all);
    FilterNoDup(all, NotIn(AddressesIn(ns)));
    forall a: Addr
      ensures a in FreeAfterRestart(ns) <==> HostAddress(ns.network.subnet, a) && !exists o :: Uses(ns, o, a)
    {
      FreeAre(ns, a);
    }
  }

  lemma RestartPartition(nets: Nets, db: Tables, nets': Nets, n: NetworkID, free: seq<Addr>, dropped: set<Addr>)
    requires Restriction(nets, db, nets') && n in nets' && Partition(nets[n], free, dropped)
    ensures Partition(nets'[n], FreeAfterRestart(nets'[n]), {})
  {
    forall o, a | Uses(nets'[n], o, a)
      ensures Uses(nets[n], o, a)
    {
      RestrictedUses(nets, db, nets', n, o, a);
    }
    PartitionAgain(nets'[n]);
  }

  /** A free list gets back what was free, what had been dropped and what is held by unwritten nodes. */
  lemma FreeAgain(nets: Nets, db: Tables, nets': Nets, n: NetworkID, free: seq<Addr>, dropped: set<Addr>, a: Addr)
    requires Restriction(nets, db, nets') && n in nets' && Partition(nets[n], free, dropped)
    ensures a in FreeAfterRestart(nets'[n]) <==> a in free || a in dropped || HeldByUnwritten(nets, db, n, a)
  {
    FreeAre(nets'[n], a);
    if HeldByUnwritten(nets, db, n, a) {
      var d :| HasHost(nets, HostKey(n, d)) && HostKey(n, d) !in db.hosts && HostAt(nets, HostKey(n, d)).ip == a;
      assert Uses(nets[n], Node(d), a);
      forall o
        ensures !Uses(nets'[n], o, a)
      {
        RestrictedUses(nets, db, nets', n, o, a);
      }
    } else if o :| Uses(nets[n], o, a) {
      RestrictedUses(nets, db, nets', n, o, a);
      if o.Node? {
        assert HasHost(nets, HostKey(n, o.nodeID)) && HostAt(nets, HostKey(n, o.nodeID)).ip == a;
      }
      assert Uses(nets'[n], o, a);
    } else {
      forall o
        ensures !Uses(nets'[n], o, a)
      {
        RestrictedUses(nets, db, nets', n, o, a);
      }
    }
  }

  /** The subnets of the networks are different pool subnets and every held address lies in its own. */
  ghost predicate SubnetsApart(all: seq<Subnet>, nets: Nets) {
    && (forall n | n in nets :: nets[n].network.subnet in all)
    && (forall n, m | n in nets && m in nets && n != m :: nets[n].network.subnet != nets[m].network.subnet)
    && (forall n, o, a | n in nets && Uses(nets[n], o, a) :: HostAddress(nets[n].network.subnet, a))
  }

  lemma RestrictedSubnetsApart(s: State, nets': Nets)
    requires Apportioned(s) && Restriction(s.nets, s.db, nets')
    ensures SubnetsApart(PrivatePool(), nets')
  {
    forall n | n in nets'
      ensures nets'[n].network.subnet in PrivatePool()
      ensures forall o, a | Uses(nets'[n], o, a) :: HostAddress(nets'[n].network.subnet, a)
    {
      assert s.ip.used[n].subnet == s.nets[n].network.subnet;
      assert Partition(s.nets[n], s.ip.used[n].ips, DroppedIn(s.dropped, n));
      forall o, a | Uses(nets'[n], o, a)
        ensures HostAddress(nets'[n].network.subnet, a)
      {
        RestrictedUses(s.nets, s.db, nets', n, o, a);
      }
    }
    forall n, m | n in nets' && m in nets' && n != m
      ensures nets'[n].network.subnet != nets'[m].network.subnet
    {
      assert s.ip.used[n].subnet != s.ip.used[m].subnet;
    }
  }

  lemma DifferentSubnetsApart(all: seq<Subnet>, b: Subnet, c: Subnet, a: Addr)
    requires PairwiseDisjoint(all) && b in all && c in all && b != c && HostAddress(b, a)
    ensures !HostAddress(c, a)
  {
    var i :| 0 <= i < |all| && all[i] == b;
    var j :| 0 <= j < |all| && all[j] == c;
    assert !ShareAddress(all[i], all[j]) || !ShareAddress(all[j], all[i]);
    HostAddressesComplete(b);
    HostAddressesComplete(c);
  }

  /** Every address seen so far belongs to one of the networks. */
  ghost predicate SeenIn(nets: Nets, done: set<NetworkID>, seen: set<Addr>) {
    forall a | a in seen :: exists m :: m in done && m in nets && a in AddressesIn(nets[m])
  }

  /** Addresses of other networks in the list are harmless: no two subnets share an address. */
  lemma AccumulatedListHarmless(all: seq<Subnet>, nets: Nets, done: set<NetworkID>, seen: set<Addr>, n: NetworkID)
    requires PairwiseDisjoint(all) && SubnetsApart(all, nets) && SeenIn(nets, done, seen) && n in nets && n !in done
    ensures var ns := nets[n];
            Filter(HostAddresses(ns.network.subnet), NotIn(seen + AddressesIn(ns))) == FreeAfterRestart(ns)
  {
    var ns := nets[n];
    var ips := HostAddresses(ns.network.subnet);
    HostAddressesComplete(ns.network.subnet);
    forall a | a in ips && a in seen
      ensures false
    {
      var m :| m in done && m in nets && a in AddressesIn(nets[m]);
      AddressesInUse(nets[m], a);
      var o :| Uses(nets[m], o, a);
      DifferentSubnetsApart(all, ns.network.subnet, nets[m].network.subnet, a);
    }
    FilterSame(ips, NotIn(seen + AddressesIn(ns)), NotIn(AddressesIn(ns)));
  }

  lemma SeenMore(nets: Nets, done: set<NetworkID>, seen: set<Addr>, n: NetworkID)
    requires SeenIn(nets, done, seen) && n in nets
    ensures SeenIn(nets, done + {n}, seen + AddressesIn(nets[n]))
  {
    forall a | a in seen + AddressesIn(nets[n])
      ensures exists m :: m in done + {n} && m in nets && a in AddressesIn(nets[m])
    {
      if a in AddressesIn(nets[n]) {
        assert n in done + {n};
      } else {
        var m :| m in done && m in nets && a in AddressesIn(nets[m]);
        assert m in done + {n};
      }
    }
  }

  ghost predicate Claimed(nets: Nets, used: map<NetworkID, Subnetwork>, done: set<NetworkID>) {
    && used.Keys == done
    && forall m | m in done :: m in nets && used[m] == Subnetwork(nets[m].network.subnet, FreeAfterRestart(nets[m]))
  }

  /** The networks that have had their turn have their subnets and free lists. */
  ghost predicate Recovered(all: seq<Subnet>, nets: Nets, ip: IpState, done: set<NetworkID>) {
    Conserved(all, ip) && Claimed(nets, ip.used, done)
  }

  /** A network's subnet is still in the pool before its turn. */
  lemma SubnetWaits(all: seq<Subnet>, nets: Nets, ip: IpState, done: set<NetworkID>, n: NetworkID)
    requires PairwiseDisjoint(all) && SubnetsApart(all, nets) && Recovered(all, nets, ip, done)
    requires n in nets && n !in done
    ensures nets[n].network.subnet in ip.pool
  {
    var b := nets[n].network.subnet;
    assert b in all;
    assert forall m | m in ip.used :: ip.used[m].subnet != b;
  }

  lemma RecoverResult(ip: IpState, n: NetworkID, subnet: Subnet, ips: set<Addr>)
    requires subnet in ip.pool
    ensures Recover(ip, n, subnet, ips).used ==
            ip.used[n := Subnetwork(subnet, Filter(HostAddresses(subnet), NotIn(ips)))]
  {
  }

  lemma ClaimedMore(nets: Nets, used: map<NetworkID, Subnetwork>, done: set<NetworkID>, n: NetworkID)
    requires Claimed(nets, used, done) && n in nets
    ensures Claimed(nets, used[n := Subnetwork(nets[n].network.subnet, FreeAfterRestart(nets[n]))], done + {n})
  {
    var used' := used[n := Subnetwork(nets[n].network.subnet, FreeAfterRestart(nets[n]))];
    forall m | m in done + {n}
      ensures m in nets && used'[m] == Subnetwork(nets[m].network.subnet, FreeAfterRestart(nets[m]))
    {
      if m != n {
        assert m in done && used'[m] == used[m];
      }
    }
  }

  /** What holds between two turns of the loop. */
  ghost predicate BetweenTurns(all: seq<Subnet>, nets: Nets, ip: IpState, done: set<NetworkID>, seen: set<Addr>) {
    PairwiseDisjoint(all) && SubnetsApart(all, nets) && Recovered(all, nets, ip, done) && SeenIn(nets, done, seen)
  }

  lemma RecoverOne(all: seq<Subnet>, nets: Nets, ip: IpState, done: set<NetworkID>, seen: set<Addr>, n: NetworkID)
    requires BetweenTurns(all, nets, ip, done, seen) && n in nets && n !in done
    ensures var seen' := seen + AddressesIn(nets[n]);
            BetweenTurns(all, nets, Recover(ip, n, nets[n].network.subnet, seen'), done + {n}, seen')
  {
    var subnet, seen' := nets[n].network.subnet, seen + AddressesIn(nets[n]);
    SubnetWaits(all, nets, ip, done, n);
    AccumulatedListHarmless(all, nets, done, seen, n);
    RecoverConserves(all, ip, n, subnet, seen');
    RecoverResult(ip, n, subnet, seen');
    ClaimedMore(nets, ip.used, done, n);
    SeenMore(nets, done, seen, n);
  }

  lemma OneElementMore<T>(done: set<T>, s: seq<T>)
    requires s != []
    ensures done + {s[0]} + Elements(s[1..]) == done + Elements(s)
  {
    assert s == [s[0]] + s[1..];
  }

  type TurnInv = (IpState, set<NetworkID>, set<Addr>) -> bool

  /** inv survives the turn of each network. */
  ghost predicate EachTurnKeeps(nets: Nets, inv: TurnInv) {
    forall ip: IpState, done: set<NetworkID>, seen: set<Addr>, n | inv(ip, done, seen) && n in nets && n !in done ::
      var seen' := seen + AddressesIn(nets[n]);
      inv(Recover(ip, n, nets[n].network.subnet, seen'), done + {n}, seen')
  }

  lemma TurnsKeep(all: seq<Subnet>, nets: Nets)
    ensures EachTurnKeeps(nets, (ip, done, seen) => BetweenTurns(all, nets, ip, done, seen))
  {
    forall ip: IpState, done: set<NetworkID>, seen: set<Addr>, n |
      BetweenTurns(all, nets, ip, done, seen) && n in nets && n !in done
      ensures var seen' := seen + AddressesIn(nets[n]);
              BetweenTurns(all, nets, Recover(ip, n, nets[n].network.subnet, seen'), done + {n}, seen')
    {
      RecoverOne(all, nets, ip, done, seen, n);
    }
  }

  /** The loop keeps what every turn keeps. */
  lemma {:induction false} RecoverAllKeeps(nets: Nets, inv: TurnInv, ip: IpState, done: set<NetworkID>,
                                           order: seq<NetworkID>, seen: set<Addr>) returns (seen': set<Addr>)
    requires EachTurnKeeps(nets, inv) && inv(ip, done, seen)
    requires NoDup(order) && forall n | n in order :: n in nets && n !in done
    ensures inv(RecoverAll(ip, nets, order, seen), done + Elements(order), seen')
    decreases order
  {
    if order == [] {
      assert done + Elements(order) == done;
      seen' := seen;
    } else {
      var n := order[0];
      assert n in order;
      OneElementMore(done, order);
      var seen1 := seen + AddressesIn(nets[n]);
      seen' := RecoverAllKeeps(nets, inv, Recover(ip, n, nets[n].network.subnet, seen1), done + {n}, order[1..], seen1);
    }
  }

  /** In whatever order, each network gets its subnet out of the pool and its unheld addresses free. */
  lemma RecoverAllRestores(all: seq<Subnet>, nets: Nets, ip: IpState, done: set<NetworkID>, order: seq<NetworkID>,
                           seen: set<Addr>)
    requires BetweenTurns(all, nets, ip, done, seen)
    requires NoDup(order) && forall n | n in order :: n in nets && n !in done
    ensures Recovered(all, nets, RecoverAll(ip, nets, order, seen), done + Elements(order))
  {
    TurnsKeep(all, nets);
    var seen' := RecoverAllKeeps(nets, (i, d, e) => BetweenTurns(all, nets, i, d, e), ip, done, order, seen);
  }

  /** order lists the networks of the tables. */
  ghost predicate ListsNetworks(order: seq<NetworkID>, db: Tables) {
    NoDup(order) && forall n :: n in order <==> n in db.networks
  }

  lemma RecoveredFromFull(all: seq<Subnet>, nets: Nets, order: seq<NetworkID>)
    requires PairwiseDisjoint(all) && SubnetsApart(all, nets) && NoDup(order) && forall n :: n in order <==> n in nets
    ensures Recovered(all, nets, RecoverAll(IpState(all, map[]), nets, order, {}), nets.Keys)
  {
    var ip := IpState(all, map[]);
    assert BetweenTurns(all, nets, ip, {}, {}) by {
      ConservedAtStart(all);
    }
    RecoverAllRestores(all, nets, ip, {}, order, {});
    assert {} + Elements(order) == nets.Keys;
  }

  // The whole start

  /** The allocator after a restart. */
  lemma RestartAllocator(s: State, order: seq<NetworkID>)
    requires Apportioned(s) && TablesOk(s.nets, s.db) && ListsNetworks(order, s.db)
    ensures var nets := Load(s.db);
            Recovered(PrivatePool(), nets, RecoverAll(IpState(PrivatePool(), map[]), nets, order, {}), nets.Keys)
  {
    LoadRestricts(s.nets, s.db);
    RestrictedSubnetsApart(s, Load(s.db));
    NetPoolsDisjoint();
    RecoveredFromFull(PrivatePool(), Load(s.db), order);
  }

  ghost predicate FreeRestored(s: State, ip: IpState) {
    forall n | n in ip.used ::
      n in s.ip.used &&
      forall a :: a in ip.used[n].ips <==>
                  a in s.ip.used[n].ips || a in DroppedIn(s.dropped, n) || HeldByUnwritten(s.nets, s.db, n, a)
  }

  lemma RestartAddresses(s: State, nets': Nets, ip: IpState)
    requires Apportioned(s) && Restriction(s.nets, s.db, nets') && Recovered(PrivatePool(), nets', ip, nets'.Keys)
    ensures AddressesOk(nets', ip.used, map[])
    ensures FreeRestored(s, ip)
  {
    forall n | n in nets'
      ensures Partition(nets'[n], FreeAfterRestart(nets'[n]), {})
      ensures forall a :: a in FreeAfterRestart(nets'[n]) <==>
                a in s.ip.used[n].ips || a in DroppedIn(s.dropped, n) || HeldByUnwritten(s.nets, s.db, n, a)
    {
      RestartPartition(s.nets, s.db, nets', n, s.ip.used[n].ips, DroppedIn(s.dropped, n));
      forall a
        ensures a in FreeAfterRestart(nets'[n]) <==>
                a in s.ip.used[n].ips || a in DroppedIn(s.dropped, n) || HeldByUnwritten(s.nets, s.db, n, a)
      {
        FreeAgain(s.nets, s.db, nets', n, s.ip.used[n].ips, DroppedIn(s.dropped, n), a);
      }
    }
  }

  lemma RestrictedTables(nets: Nets, db: Tables, nets': Nets)
    requires TablesOk(nets, db) && Restriction(nets, db, nets')
    ensures TablesOk(nets', db) && RowsComplete(nets', db)
  {
  }

  lemma RestartTables(s: State, order: seq<NetworkID>)
    requires TablesOk(s.nets, s.db) && ListsNetworks(order, s.db)
    ensures var s' := Init(s.db, order);
            && TablesOk(s'.nets, s'.db) && RowsComplete(s'.nets, s'.db)
            && Restriction(s.nets, s.db, s'.nets) && (RowsComplete(s.nets, s.db) ==> s'.nets == s.nets)
  {
    LoadRestricts(s.nets, s.db);
    if RowsComplete(s.nets, s.db) {
      LoadRestores(s.nets, s.db);
    }
    RestrictedTables(s.nets, s.db, Load(s.db));
  }

  /**
   * A restart rebuilds the networks and nodes that have a row and every instance, after which tables and
   * memory agree; all stored records are pending again and live. Complete tables rebuild memory exactly.
   */
  lemma RestartRebuilds(s: State, order: seq<NetworkID>)
    requires Alive(s) && ListsNetworks(order, s.db)
    ensures var s' := Init(s.db, order);
            && Tracked(s') && RowsComplete(s'.nets, s'.db)
            && Restriction(s.nets, s.db, s'.nets) && (RowsComplete(s.nets, s.db) ==> s'.nets == s.nets)
            && s'.db == s.db && s'.pending == s.db.pending && s'.names == map[]
  {
    var s' := Init(s.db, order);
    RestartTables(s, order);
    forall p | p in s.db.pending
      ensures LiveRecord(s'.nets, p)
    {
      assert LiveRecord(s.nets, p) && Held(s'.nets, Slot(p.networkID, p.nodeID, p.requester));
    }
  }

  /** No address of a network has two owners. */
  ghost predicate OneOwnerEach(nets: Nets) {
    forall n, o, p, a | n in nets && Uses(nets[n], o, a) && Uses(nets[n], p, a) :: o == p
  }

  lemma RecoveredPartitioned(nets: Nets, ip: IpState)
    requires Recovered(PrivatePool(), nets, ip, nets.Keys) && SubnetsApart(PrivatePool(), nets) && OneOwnerEach(nets)
    ensures AddressesOk(nets, ip.used, map[])
  {
    forall n | n in nets
      ensures ip.used[n].subnet == nets[n].network.subnet
      ensures Partition(nets[n], ip.used[n].ips, DroppedIn(map[], n))
    {
      PartitionAgain(nets[n]);
    }
  }

  lemma PartitionedApart(s: State)
    requires Apportioned(s)
    ensures SubnetsApart(PrivatePool(), s.nets) && OneOwnerEach(s.nets)
  {
    forall n | n in s.nets
      ensures s.nets[n].network.subnet in PrivatePool()
      ensures forall o, a | Uses(s.nets[n], o, a) :: HostAddress(s.nets[n].network.subnet, a)
      ensures forall o, p, a | Uses(s.nets[n], o, a) && Uses(s.nets[n], p, a) :: o == p
    {
      assert s.ip.used[n].subnet == s.nets[n].network.subnet;
      assert Partition(s.nets[n], s.ip.used[n].ips, DroppedIn(s.dropped, n));
    }
    forall n, m | n in s.nets && m in s.nets && n != m
      ensures s.nets[n].network.subnet != s.nets[m].network.subnet
    {
      assert s.ip.used[n].subnet != s.ip.used[m].subnet;
    }
  }

  /**
   * From any tables whatever: a start gives every address one place exactly if the networks have different
   * subnets of the pool, every address lies in its network's subnet and none has two owners.
   */
  lemma StartIff(db: Tables, order: seq<NetworkID>)
    requires ListsNetworks(order, db)
    ensures Apportioned(Init(db, order)) <==> SubnetsApart(PrivatePool(), Load(db)) && OneOwnerEach(Load(db))
  {
    var s := Init(db, order);
    if SubnetsApart(PrivatePool(), Load(db)) && OneOwnerEach(Load(db)) {
      NetPoolsDisjoint();
      RecoveredFromFull(PrivatePool(), Load(db), order);
      RecoveredPartitioned(Load(db), s.ip);
    }
    if Apportioned(s) {
      PartitionedApart(s);
    }
  }

  /** Partitioned addresses are partitioned again, without the ledger of dropped ones. */
  lemma RestartRefines(s: State, order: seq<NetworkID>)
    requires Apportioned(s) && TablesOk(s.nets, s.db) && ListsNetworks(order, s.db)
    ensures var s' := Init(s.db, order);
            && Apportioned(s') && FreeRestored(s, s'.ip)
            && s'.ip.used.Keys == s.db.networks.Keys && s'.dropped == map[]
  {
    RestartAllocator(s, order);
    LoadRestricts(s.nets, s.db);
    RestartAddresses(s, Load(s.db), Init(s.db, order).ip);
  }

  /** The first start, on empty tables. */
  ghost function FirstStart(): State {
    Init(EMPTY, [])
  }

  lemma FirstStartInv()
    ensures Inv(FirstStart()) && RowsComplete(FirstStart().nets, FirstStart().db)
  {
    NetPoolsDisjoint();
    ConservedAtStart(PrivatePool());
  }
}
