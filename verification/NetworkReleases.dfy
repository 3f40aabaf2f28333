/**
 * What exactly the sections that give addresses back change: releases of an instance, of a node and of the
 * instances that a node does not report, and the search for connections that can be resolved
 * (src/cm/networkmanager/networkmanager.cpp).
 */
module NetworkReleases {
  import opened Cidr
  import opened Wrappers
  import opened Seqs
  import opened IpSubnets
  import opened NetworkTypes
  import opened NetworkDatabase
  import opened FirewallRules
  import opened PendingConnections
  import opened NetworkSpec
  import opened NetworkInvariant
  import opened NetworkSteps
  import opened NetworkNames
  import opened NetworkTables
  import opened NetworkReconcile

  // What is given back

  /** The addresses of the given instances of one network, in order. */
  function AddressesOf(nets: Nets, slots: seq<Slot>, n: NetworkID): seq<Addr>
    requires forall k | k in slots :: Held(nets, k)
  {
    if slots == [] then []
    else (if slots[0].networkID == n then [At(nets, slots[0]).ip] else []) + AddressesOf(nets, slots[1..], n)
  }

  ghost predicate AddressAmong(nets: Nets, slots: seq<Slot>, a: Addr)
    requires forall k | k in slots :: Held(nets, k)
  {
    exists k | k in slots :: At(nets, k).ip == a
  }

  /** The addresses of the instances are free, behind those that were, and they alone have lost their names. */
  ghost predicate AddressesFreed(nets: Nets, slots: seq<Slot>, s: State, s': State)
    requires forall k | k in slots :: Held(nets, k)
  {
    && s'.ip.pool == s.ip.pool && s'.ip.used.Keys == s.ip.used.Keys
    && (forall n | n in s.ip.used ::
          s'.ip.used[n] == Subnetwork(s.ip.used[n].subnet, s.ip.used[n].ips + AddressesOf(nets, slots, n)))
    && (forall a :: a in s'.names <==> a in s.names && !AddressAmong(nets, slots, a))
    && (forall a | a in s'.names :: s'.names[a] == s.names[a])
  }

  lemma AddressesOfFirst(nets: Nets, k: Slot, rest: seq<Slot>, n: NetworkID)
    requires Held(nets, k) && forall j | j in rest :: Held(nets, j)
    ensures AddressesOf(nets, [k] + rest, n) == AddressesOf(nets, [k], n) + AddressesOf(nets, rest, n)
  {
    var all := [k] + rest;
    assert all[0] == k && all[1..] == rest;
    assert AddressesOf(nets, [k], n) == if k.networkID == n then [At(nets, k).ip] else [];
  }

  lemma AddressesFreedJoin(nets: Nets, k: Slot, rest: seq<Slot>, s: State, s1: State, s2: State)
    requires Held(nets, k) && forall j | j in rest :: Held(nets, j)
    requires AddressesFreed(nets, [k], s, s1) && AddressesFreed(nets, rest, s1, s2)
    ensures AddressesFreed(nets, [k] + rest, s, s2)
  {
    var all := [k] + rest;
    assert all[0] == k && all[1..] == rest;
    forall n | n in s.ip.used
      ensures s.ip.used[n].ips + AddressesOf(nets, [k], n) + AddressesOf(nets, rest, n)
           == s.ip.used[n].ips + AddressesOf(nets, all, n)
    {
      AddressesOfFirst(nets, k, rest, n);
      Associate(s.ip.used[n].ips, AddressesOf(nets, [k], n), AddressesOf(nets, rest, n));
    }
    forall a
      ensures AddressAmong(nets, all, a) <==> AddressAmong(nets, [k], a) || AddressAmong(nets, rest, a)
    {
      assert k in [k];
    }
  }

  lemma AddressesFreedNone(nets: Nets, s: State)
    ensures AddressesFreed(nets, [], s, s)
  {
    assert forall n | n in s.ip.used :: s.ip.used[n].ips + [] == s.ip.used[n].ips;
  }

  /** An instance of that name, with a good answer for it, is among the given ones. */
  ghost predicate IdentAmong(slots: seq<Slot>, ok: InstanceIdent -> bool, i: InstanceIdent) {
    exists k | k in slots :: k.ident == i && ok(i)
  }

  /** The records that none of the instances with a good answer has requested. */
  ghost function NotRequestedBy(slots: seq<Slot>, ok: InstanceIdent -> bool): PendingConnection -> bool {
    (p: PendingConnection) => !IdentAmong(slots, ok, p.requester)
  }

  /** The instances that were removed have lost their rows and their records, in the table those forgotten there. */
  ghost predicate RowsFreed(slots: seq<Slot>, removed: InstanceIdent -> bool, forgotten: InstanceIdent -> bool,
                            s: State, s': State) {
    && s'.pending == Filter(s.pending, NotRequestedBy(slots, removed))
    && s'.db == s.db.(instances := s'.db.instances,
                      pending := Filter(s.db.pending, NotRequestedBy(slots, forgotten)))
    && (forall i :: i in s'.db.instances <==> i in s.db.instances && !IdentAmong(slots, removed, i))
    && (forall i | i in s'.db.instances :: s'.db.instances[i] == s.db.instances[i])
    && s'.dropped == s.dropped
  }

  lemma IdentAmongJoin(k: Slot, rest: seq<Slot>, ok: InstanceIdent -> bool, i: InstanceIdent)
    ensures IdentAmong([k] + rest, ok, i) <==> IdentAmong([k], ok, i) || IdentAmong(rest, ok, i)
  {
    assert k in [k];
  }

  lemma RecordsFreedJoin(k: Slot, rest: seq<Slot>, ok: InstanceIdent -> bool, ps: seq<PendingConnection>)
    ensures Filter(Filter(ps, NotRequestedBy([k], ok)), NotRequestedBy(rest, ok)) ==
            Filter(ps, NotRequestedBy([k] + rest, ok))
  {
    forall p | p in ps
      ensures NotRequestedBy([k] + rest, ok)(p) <==> NotRequestedBy([k], ok)(p) && NotRequestedBy(rest, ok)(p)
    {
      IdentAmongJoin(k, rest, ok, p.requester);
    }
    FilterBoth(ps, NotRequestedBy([k], ok), NotRequestedBy(rest, ok), NotRequestedBy([k] + rest, ok));
  }

  lemma RowsFreedJoin(k: Slot, rest: seq<Slot>, removed: InstanceIdent -> bool, forgotten: InstanceIdent -> bool,
                      s: State, s1: State, s2: State)
    requires RowsFreed([k], removed, forgotten, s, s1) && RowsFreed(rest, removed, forgotten, s1, s2)
    ensures RowsFreed([k] + rest, removed, forgotten, s, s2)
  {
    RecordsFreedJoin(k, rest, removed, s.pending);
    RecordsFreedJoin(k, rest, forgotten, s.db.pending);
    forall i
      ensures IdentAmong([k] + rest, removed, i) <==> IdentAmong([k], removed, i) || IdentAmong(rest, removed, i)
    {
      IdentAmongJoin(k, rest, removed, i);
    }
  }

  lemma RowsFreedNone(removed: InstanceIdent -> bool, forgotten: InstanceIdent -> bool, s: State)
    ensures RowsFreed([], removed, forgotten, s, s)
  {
    FilterAll(s.pending, NotRequestedBy([], removed));
    FilterAll(s.db.pending, NotRequestedBy([], forgotten));
  }

  lemma RecordsOfOne(k: Slot, ok: InstanceIdent -> bool, ps: seq<PendingConnection>)
    ensures Filter(ps, NotRequestedBy([k], ok)) == if ok(k.ident) then Filter(ps, OtherRequester(k.ident)) else ps
  {
    assert forall i :: IdentAmong([k], ok, i) <==> k.ident == i && ok(i) by {
      assert k in [k];
    }
    if ok(k.ident) {
      FilterSame(ps, NotRequestedBy([k], ok), OtherRequester(k.ident));
    } else {
      FilterAll(ps, NotRequestedBy([k], ok));
    }
  }

  // Release of one instance

  lemma AddressFreed(nets: Nets, k: Slot, s: State, s': State)
    requires Held(nets, k)
    requires s'.ip == GiveIP(s.ip, k.networkID, At(nets, k).ip) && s'.names == s.names - {At(nets, k).ip}
    ensures AddressesFreed(nets, [k], s, s')
  {
    assert [k][0] == k && [k][1..] == [];
    assert forall n :: AddressesOf(nets, [k], n) == if k.networkID == n then [At(nets, k).ip] else [];
    assert forall n | n in s.ip.used :: s.ip.used[n].ips + [] == s.ip.used[n].ips;
    assert forall a :: AddressAmong(nets, [k], a) <==> At(nets, k).ip == a by {
      assert k in [k];
    }
  }

  lemma RowFreed(k: Slot, removed: InstanceIdent -> bool, forgotten: InstanceIdent -> bool, s: State, s': State)
    requires s'.dropped == s.dropped && (forgotten(k.ident) ==> removed(k.ident))
    requires s'.pending == if removed(k.ident) then Filter(s.pending, OtherRequester(k.ident)) else s.pending
    requires var rows := if forgotten(k.ident) then Filter(s.db.pending, OtherRequester(k.ident)) else s.db.pending;
             var instances := if removed(k.ident) then s.db.instances - {k.ident} else s.db.instances;
             s'.db == s.db.(instances := instances, pending := rows)
    ensures RowsFreed([k], removed, forgotten, s, s')
  {
    RecordsOfOne(k, removed, s.pending);
    RecordsOfOne(k, forgotten, s.db.pending);
    assert forall i :: IdentAmong([k], removed, i) <==> k.ident == i && removed(i) by {
      assert k in [k];
    }
  }

  /**
   * The address is free and without names in any case; the instance, its row and its records go if there is a
   * row and it can be removed.
   */
  ghost predicate SlotFreed(s: State, k: Slot, removeOk: bool, forgetOk: InstanceIdent -> bool, s': State, ok: bool)
    requires Held(s.nets, k)
  {
    && ok == (removeOk && k.ident in s.db.instances)
    && AddressesFreed(s.nets, [k], s, s')
    && (forall a :: NamesAt(s'.names, a) == if a == At(s.nets, k).ip then [] else NamesAt(s.names, a))
    && if ok then
         && SameNetworks(s.nets, s'.nets) && SameHosts(s.nets, s'.nets)
         && OneMore(s'.nets, s.nets, k) && !Held(s'.nets, k)
         && RowsFreed([k], _ => true, forgetOk, s, s')
       else s' == s.(ip := s'.ip, names := s'.names)
  }

  lemma SlotExactly(s: State, k: Slot, removeOk: bool, forgetOk: InstanceIdent -> bool)
    requires Held(s.nets, k)
    ensures var (s', ok) := ReleaseSlot(s, k, removeOk, forgetOk);
            SlotFreed(s, k, removeOk, forgetOk, s', ok)
  {
    var s' := ReleaseSlot(s, k, removeOk, forgetOk).0;
    AddressFreed(s.nets, k, s, s');
    LookupAfterDrop(s.nets, k);
    if removeOk && k.ident in s.db.instances {
      RowFreed(k, _ => true, forgetOk, s, s');
    }
  }

  /** Releasing an instance frees a place where the node has it, or changes nothing if there is none. */
  lemma ReleaseExactly(s: State, ident: InstanceIdent, nodeID: NodeID, removeOk: bool,
                       forgetOk: InstanceIdent -> bool, order: Order) returns (k: Option<Slot>)
    requires IsOrder(order)
    ensures var (s', ok) := ReleaseInstance(s, ident, nodeID, removeOk, forgetOk, order);
            match k
            case None => s' == s && ok && forall j | Held(s.nets, j) && j.nodeID == nodeID :: j.ident != ident
            case Some(j) =>
              Held(s.nets, j) && j.nodeID == nodeID && j.ident == ident &&
              SlotFreed(s, j, removeOk, forgetOk, s', ok)
  {
    k := ReleaseCases(s, ident, nodeID, removeOk, forgetOk, order);
    if k.Some? {
      SlotExactly(s, k.value, removeOk, forgetOk);
    }
  }

  /** There is one such place, because the idents are the keys of the table. */
  lemma ReleaseHeldExactly(s: State, k: Slot, removeOk: bool, forgetOk: InstanceIdent -> bool, order: Order)
    requires MirrorInstances(s.nets, s.db.instances) && Held(s.nets, k) && IsOrder(order)
    ensures var (s', ok) := ReleaseInstance(s, k.ident, k.nodeID, removeOk, forgetOk, order);
            SlotFreed(s, k, removeOk, forgetOk, s', ok)
  {
    ReleaseHeld(s, k, removeOk, forgetOk, order);
    SlotExactly(s, k, removeOk, forgetOk);
  }

  // Release of a node

  /** The first n elements, or all if there are fewer. */
  function Upto<T>(s: seq<T>, n: nat): seq<T> {
    if n < |s| then s[..n] else s
  }

  lemma UptoFirst<T>(x: T, rest: seq<T>, n: nat)
    requires n > 0
    ensures Upto([x] + rest, n) == [x] + Upto(rest, n - 1)
  {
  }

  lemma RowExactly(s: State, k: Slot, removeOk: bool, forgetOk: InstanceIdent -> bool)
    requires Held(s.nets, k) && k.ident in s.db.instances
    ensures var (s', ok) := ReleaseRow(s, k, removeOk, forgetOk);
            && ok == removeOk && s'.nets == s.nets && AddressesFreed(s.nets, [k], s, s')
            && RowsFreed(if ok then [k] else [], _ => true, forgetOk, s, s')
            && s'.db.instances == if ok then s.db.instances - {k.ident} else s.db.instances
  {
    var s' := ReleaseRow(s, k, removeOk, forgetOk).0;
    AddressFreed(s.nets, k, s, s');
    if removeOk {
      RowFreed(k, _ => true, forgetOk, s, s');
    } else {
      RowsFreedNone(_ => true, forgetOk, s);
    }
  }

  /** Every instance has a row, also when those before it have lost theirs. */
  ghost predicate Stored(slots: seq<Slot>, rows: map<InstanceIdent, Instance>) {
    slots == [] || (slots[0].ident in rows && Stored(slots[1..], rows - {slots[0].ident}))
  }

  lemma {:induction false} DifferentStored(slots: seq<Slot>, rows: map<InstanceIdent, Instance>)
    requires forall k | k in slots :: k.ident in rows
    requires forall i, j | 0 <= i < j < |slots| :: slots[i].ident != slots[j].ident
    ensures Stored(slots, rows)
  {
    if slots != [] {
      assert slots[0] in slots && forall i | 0 <= i < |slots| - 1 :: slots[1..][i] == slots[i + 1];
      DifferentStored(slots[1..], rows - {slots[0].ident});
    }
  }

  /** The call that fails has freed its address already; what comes after it stays as it was. */
  ghost predicate RowsGone(nets: Nets, slots: seq<Slot>, failAt: nat, forgetOk: InstanceIdent -> bool, s: State,
                           s': State)
    requires forall k | k in slots :: Held(nets, k)
  {
    && AddressesFreed(nets, Upto(slots, failAt + 1), s, s')
    && RowsFreed(Upto(slots, failAt), _ => true, forgetOk, s, s')
  }

  lemma RowsGoneFirst(nets: Nets, k: Slot, rest: seq<Slot>, forgetOk: InstanceIdent -> bool, s: State, s': State)
    requires Held(nets, k) && forall j | j in rest :: Held(nets, j)
    requires AddressesFreed(nets, [k], s, s') && RowsFreed([], _ => true, forgetOk, s, s')
    ensures RowsGone(nets, [k] + rest, 0, forgetOk, s, s')
  {
    UptoFirst(k, rest, 1);
    assert [k] + Upto(rest, 0) == [k] && Upto([k] + rest, 0) == [];
  }

  lemma RowsGoneJoin(nets: Nets, k: Slot, rest: seq<Slot>, failAt: nat, forgetOk: InstanceIdent -> bool, s: State,
                     s1: State, s2: State)
    requires failAt > 0 && Held(nets, k) && forall j | j in rest :: Held(nets, j)
    requires AddressesFreed(nets, [k], s, s1) && RowsFreed([k], _ => true, forgetOk, s, s1)
    requires RowsGone(nets, rest, failAt - 1, forgetOk, s1, s2)
    ensures RowsGone(nets, [k] + rest, failAt, forgetOk, s, s2)
  {
    UptoFirst(k, rest, failAt + 1);
    UptoFirst(k, rest, failAt);
    AddressesFreedJoin(nets, k, Upto(rest, failAt), s, s1, s2);
    RowsFreedJoin(k, Upto(rest, failAt - 1), _ => true, forgetOk, s, s1, s2);
  }

  lemma {:induction false} ReleaseRowsExactly(s: State, slots: seq<Slot>, failAt: nat, forgetOk: InstanceIdent -> bool)
    requires (forall k | k in slots :: Held(s.nets, k)) && Stored(slots, s.db.instances)
    ensures var (s', ok) := ReleaseRows(s, slots, failAt, forgetOk);
            ok == (|slots| <= failAt) && RowsGone(s.nets, slots, failAt, forgetOk, s, s')
    decreases slots
  {
    if slots == [] {
      AddressesFreedNone(s.nets, s);
      RowsFreedNone(_ => true, forgetOk, s);
    } else {
      var (k, rest) := (slots[0], slots[1..]);
      assert k in slots && slots == [k] + rest;
      RowExactly(s, k, failAt != 0, forgetOk);
      var s1 := ReleaseRow(s, k, failAt != 0, forgetOk).0;
      assert ReleaseRows(s, slots, failAt, forgetOk) ==
             if failAt == 0 then (s1, false) else ReleaseRows(s1, rest, failAt - 1, forgetOk);
      if failAt == 0 {
        RowsGoneFirst(s.nets, k, rest, forgetOk, s, s1);
      } else {
        ReleaseRowsExactly(s1, rest, failAt - 1, forgetOk);
        var s2 := ReleaseRows(s1, rest, failAt - 1, forgetOk).0;
        RowsGoneJoin(s.nets, k, rest, failAt, forgetOk, s, s1, s2);
      }
    }
  }

  lemma HostStored(nets: Nets, rows: map<InstanceIdent, Instance>, h: HostKey, slots: seq<Slot>)
    requires MirrorInstances(nets, rows) && ListsHost(slots, nets, h)
    ensures Stored(slots, rows)
  {
    forall i, j | 0 <= i < j < |slots|
      ensures slots[i].ident != slots[j].ident
    {
      assert slots[i] in slots && slots[j] in slots && slots[i] != slots[j];
    }
    DifferentStored(slots, rows);
  }

  /** The network goes back to the allocator first, then its row and the network. */
  ghost predicate NetworkGone(s: State, n: NetworkID, storageOk: bool, s': State, ok: bool) {
    && s'.ip == (if n in s.ip.used then IpState(s.ip.pool + [s.ip.used[n].subnet], s.ip.used - {n}) else s.ip)
    && ok == (storageOk && n in s.db.networks && (forall h | h in s.db.hosts :: h.networkID != n) &&
              (forall i | i in s.db.instances :: s.db.instances[i].networkID != n))
    && s' == if ok then s.(ip := s'.ip, nets := s.nets - {n}, dropped := s.dropped - {n},
                           db := s.db.(networks := s.db.networks - {n}))
             else s.(ip := s'.ip)
  }

  ghost predicate HostRowRemovable(db: Tables, h: HostKey, storageOk: bool) {
    && storageOk && h in db.hosts
    && forall i | i in db.instances :: !(db.instances[i].networkID == h.networkID && db.instances[i].nodeID == h.nodeID)
  }

  /** The node is gone from memory and from the table, and its address is not free; its last node ends a network. */
  ghost predicate HostGone(s: State, h: HostKey, rowOk: bool, networkOk: bool, s': State, ok: bool)
    requires HasHost(s.nets, h)
  {
    if !HostRowRemovable(s.db, h, rowOk) then s' == s && !ok
    else
      var (n, ns) := (h.networkID, s.nets[h.networkID]);
      var gone := (if n in s.dropped then s.dropped[n] else {}) + {HostAt(s.nets, h).ip};
      var s1 := s.(nets := s.nets[n := NetworkState(ns.network, ns.hosts - {h.nodeID})],
                   db := s.db.(hosts := s.db.hosts - {h}), dropped := s.dropped[n := gone]);
      if exists d | d in ns.hosts :: d != h.nodeID then s' == s1 && ok
      else NetworkGone(s1, n, networkOk, s', ok)
  }

  lemma RemoveNetworkExactly(s: State, n: NetworkID, storageOk: bool)
    ensures var (s', ok) := RemoveNetwork(s, n, storageOk);
            NetworkGone(s, n, storageOk, s', ok)
  {
  }

  lemma RemoveHostExactly(s: State, h: HostKey, failAt: nat, calls: nat)
    requires HasHost(s.nets, h)
    ensures var (s', ok) := RemoveHost(s, h, failAt, calls);
            HostGone(s, h, failAt != calls, failAt != calls + 1, s', ok)
  {
    var ns := s.nets[h.networkID];
    assert ns.hosts - {h.nodeID} == map[] <==> forall d | d in ns.hosts :: d == h.nodeID by {
      assert forall d :: d in ns.hosts - {h.nodeID} <==> d in ns.hosts && d != h.nodeID;
    }
    if DeleteHost(s.db, h, failAt != calls).1 {
      RemoveHostCases(s, h, failAt, calls);
      if LastHost(s, h) {
        RemoveNetworkExactly(WithoutHost(s, h), h.networkID, failAt != calls + 1);
      }
    }
  }

  /**
   * The instances of a node are freed one after the other, then the node goes. The call that fails ends the
   * release: s1 is the state when the instances have been dealt with.
   */
  lemma ReleaseNodeExactly(s: State, h: HostKey, failAt: nat, forgetOk: InstanceIdent -> bool, order: Order)
    returns (slots: seq<Slot>, s1: State)
    requires MirrorInstances(s.nets, s.db.instances) && HasHost(s.nets, h) && IsOrder(order)
    ensures ListsHost(slots, s.nets, h) && s1.nets == s.nets && RowsGone(s.nets, slots, failAt, forgetOk, s, s1)
    ensures var ((s', ok), calls) := (ReleaseNode(s, h, failAt, forgetOk, order), |slots|);
            if failAt < calls then s' == s1 && !ok
            else HostGone(s1, h, failAt != calls, failAt != calls + 1, s', ok)
  {
    slots := ReleaseNodeCases(s, h, failAt, forgetOk, order);
    HostStored(s.nets, s.db.instances, h, slots);
    ReleaseRowsExactly(s, slots, failAt, forgetOk);
    s1 := ReleaseRows(s, slots, failAt, forgetOk).0;
    if |slots| <= failAt {
      RemoveHostExactly(s1, h, failAt, |slots|);
    }
  }

  ghost predicate HostHolds(nets: Nets, h: HostKey, a: Addr) {
    exists k :: Held(nets, k) && OnHost(h, k) && At(nets, k).ip == a
  }

  lemma RowsGoneNames(s: State, h: HostKey, slots: seq<Slot>, failAt: nat, forgetOk: InstanceIdent -> bool, a: Addr)
    requires ListsHost(slots, s.nets, h)
    ensures var (s1, ok) := ReleaseRows(s, slots, failAt, forgetOk);
            && (!HostHolds(s.nets, h, a) ==> NamesAt(s1.names, a) == NamesAt(s.names, a))
            && (HostHolds(s.nets, h, a) && ok ==> NamesAt(s1.names, a) == [])
  {
    ReleaseRowsNames(s, slots, failAt, forgetOk);
    var (s1, ok) := ReleaseRows(s, slots, failAt, forgetOk);
    if a in s.names && a !in s1.names {
      var k :| k in slots && At(s.nets, k).ip == a;
      assert Held(s.nets, k) && OnHost(h, k);
    }
    if HostHolds(s.nets, h, a) {
      var k :| Held(s.nets, k) && OnHost(h, k) && At(s.nets, k).ip == a;
      assert k in slots;
    }
  }

  /** Names stay unless the node has an instance with the address; once all instances are freed, those have none. */
  lemma ReleaseNodeNames(s: State, h: HostKey, failAt: nat, forgetOk: InstanceIdent -> bool, order: Order, a: Addr)
    requires HasHost(s.nets, h) && IsOrder(order)
    ensures var (s', ok) := ReleaseNode(s, h, failAt, forgetOk, order);
            && (!HostHolds(s.nets, h, a) ==> NamesAt(s'.names, a) == NamesAt(s.names, a))
            && (HostHolds(s.nets, h, a) && (ok || !HasHost(s'.nets, h)) ==> NamesAt(s'.names, a) == [])
  {
    var slots := ReleaseNodeCases(s, h, failAt, forgetOk, order);
    RowsGoneNames(s, h, slots, failAt, forgetOk, a);
  }

  // Reconciliation

  /** k has been freed, and with its row it has gone; no other instance has changed. */
  ghost predicate FreedAlone(s: State, k: Slot, removeOk: InstanceIdent -> bool, forgetOk: InstanceIdent -> bool,
                             s': State)
    requires Held(s.nets, k)
  {
    && AddressesFreed(s.nets, [k], s, s')
    && RowsFreed([k], removeOk, Both(removeOk, forgetOk), s, s')
    && SameNetworks(s.nets, s'.nets) && SameHosts(s.nets, s'.nets)
    && (forall j :: Held(s'.nets, j) <==> Held(s.nets, j) && !(j == k && removeOk(k.ident)))
    && (forall j | Held(s'.nets, j) :: At(s'.nets, j) == At(s.nets, j))
  }

  lemma SlotFreedAlone(s: State, k: Slot, removeOk: InstanceIdent -> bool, forgetOk: InstanceIdent -> bool)
    requires Held(s.nets, k) && k.ident in s.db.instances
    ensures FreedAlone(s, k, removeOk, forgetOk, ReleaseSlot(s, k, removeOk(k.ident), forgetOk).0)
  {
    var s' := ReleaseSlot(s, k, removeOk(k.ident), forgetOk).0;
    AddressFreed(s.nets, k, s, s');
    LookupAfterDrop(s.nets, k);
    RowFreed(k, removeOk, Both(removeOk, forgetOk), s, s');
  }

  ghost predicate FreesAlone(inv: State -> bool, removeOk: InstanceIdent -> bool, forgetOk: InstanceIdent -> bool,
                             order: Order, s: State, k: Slot)
    requires IsOrder(order)
  {
    inv(s) && Held(s.nets, k) ==>
      var s' := ReleaseInstance(s, k.ident, k.nodeID, removeOk(k.ident), forgetOk, order).0;
      inv(s') && FreedAlone(s, k, removeOk, forgetOk, s')
  }

  ghost predicate FreesEachAlone(inv: State -> bool, removeOk: InstanceIdent -> bool,
                                 forgetOk: InstanceIdent -> bool, order: Order)
    requires IsOrder(order)
  {
    forall s, k :: FreesAlone(inv, removeOk, forgetOk, order, s, k)
  }

  lemma TablesFreeEachAlone(removeOk: InstanceIdent -> bool, forgetOk: InstanceIdent -> bool, order: Order)
    requires IsOrder(order)
    ensures FreesEachAlone((s: State) => TablesOk(s.nets, s.db), removeOk, forgetOk, order)
  {
    var inv := (s: State) => TablesOk(s.nets, s.db);
    forall s: State, k: Slot
      ensures FreesAlone(inv, removeOk, forgetOk, order, s, k)
    {
      if TablesOk(s.nets, s.db) && Held(s.nets, k) {
        ReleaseHeld(s, k, removeOk(k.ident), forgetOk, order);
        TablesReleaseSlot(s, k, removeOk(k.ident), forgetOk);
        SlotFreedAlone(s, k, removeOk, forgetOk);
      }
    }
  }

  lemma {:induction false} AddressesAlike(nets: Nets, nets': Nets, slots: seq<Slot>, n: NetworkID)
    requires HeldAlike(nets, nets', slots)
    ensures AddressesOf(nets, slots, n) == AddressesOf(nets', slots, n)
  {
    if slots != [] {
      assert slots[0] in slots;
      AddressesAlike(nets, nets', slots[1..], n);
    }
  }

  lemma FreedAlike(nets: Nets, nets': Nets, slots: seq<Slot>, s: State, s': State)
    requires HeldAlike(nets, nets', slots) && AddressesFreed(nets', slots, s, s')
    ensures AddressesFreed(nets, slots, s, s')
  {
    forall n
      ensures AddressesOf(nets, slots, n) == AddressesOf(nets', slots, n)
    {
      AddressesAlike(nets, nets', slots, n);
    }
    assert forall a :: AddressAmong(nets, slots, a) == AddressAmong(nets', slots, a);
  }

  lemma FreedAllJoin(k: Slot, rest: seq<Slot>, removeOk: InstanceIdent -> bool, forgetOk: InstanceIdent -> bool,
                     s: State, s1: State, s2: State)
    requires Held(s.nets, k) && k !in rest && (forall j | j in rest :: Held(s.nets, j) && Held(s1.nets, j))
    requires FreedAlone(s, k, removeOk, forgetOk, s1)
    requires AddressesFreed(s1.nets, rest, s1, s2) && RowsFreed(rest, removeOk, Both(removeOk, forgetOk), s1, s2)
    ensures AddressesFreed(s.nets, [k] + rest, s, s2)
    ensures RowsFreed([k] + rest, removeOk, Both(removeOk, forgetOk), s, s2)
  {
    FreedAlike(s.nets, s1.nets, rest, s1, s2);
    AddressesFreedJoin(s.nets, k, rest, s, s1, s2);
    RowsFreedJoin(k, rest, removeOk, Both(removeOk, forgetOk), s, s1, s2);
  }

  /** The instances that come next are still there. */
  lemma RestHeld(s: State, k: Slot, rest: seq<Slot>, removeOk: InstanceIdent -> bool, forgetOk: InstanceIdent -> bool,
                 s': State)
    requires Held(s.nets, k) && NoDup([k] + rest) && forall j | j in rest :: Held(s.nets, j)
    requires FreedAlone(s, k, removeOk, forgetOk, s')
    ensures k !in rest && NoDup(rest) && forall j | j in rest :: Held(s'.nets, j)
  {
    NoDupRotated([k] + rest);
    assert ([k] + rest)[1..] == rest;
  }

  /** All listed instances are freed, and those whose row can be removed are gone. */
  lemma {:induction false} ReleaseAllExactly(inv: State -> bool, s: State, slots: seq<Slot>, nodeID: NodeID,
                                             removeOk: InstanceIdent -> bool, forgetOk: InstanceIdent -> bool,
                                             order: Order)
    requires IsOrder(order) && inv(s) && FreesEachAlone(inv, removeOk, forgetOk, order)
    requires NoDup(slots) && forall k | k in slots :: Held(s.nets, k) && k.nodeID == nodeID
    ensures var s' := ReleaseAll(s, slots, nodeID, removeOk, forgetOk, order);
            && AddressesFreed(s.nets, slots, s, s')
            && RowsFreed(slots, removeOk, Both(removeOk, forgetOk), s, s')
    decreases slots
  {
    if slots == [] {
      AddressesFreedNone(s.nets, s);
      RowsFreedNone(removeOk, Both(removeOk, forgetOk), s);
    } else {
      var (k, rest) := (slots[0], slots[1..]);
      assert k in slots && slots == [k] + rest;
      var s1 := ReleaseInstance(s, k.ident, nodeID, removeOk(k.ident), forgetOk, order).0;
      assert FreesAlone(inv, removeOk, forgetOk, order, s, k);
      RestHeld(s, k, rest, removeOk, forgetOk, s1);
      var s2 := ReleaseAll(s1, rest, nodeID, removeOk, forgetOk, order);
      ReleaseAllExactly(inv, s1, rest, nodeID, removeOk, forgetOk, order);
      FreedAllJoin(k, rest, removeOk, forgetOk, s, s1, s2);
    }
  }

  /** The node has the instance and does not report it. */
  ghost predicate Unreported(nets: Nets, nodeID: NodeID, report: seq<InstanceReport>, k: Slot) {
    Held(nets, k) && k.nodeID == nodeID && forall i | 0 <= i < |report| :: report[i].ident != k.ident
  }

  lemma UnreportedMembers(nets: Nets, nodeID: NodeID, report: seq<InstanceReport>, order: Order)
    requires IsOrder(order)
    ensures var slots := Filter(order(nets), StaleSlots(nodeID, report));
            NoDup(slots) && forall k :: k in slots <==> Unreported(nets, nodeID, report, k)
  {
    StaleMembers(nets, nodeID, report, order);
  }

  lemma SyncFrame(s: State, nodeID: NodeID, report: seq<InstanceReport>, removeOk: InstanceIdent -> bool,
                  answers: Answers, order: Order)
    requires IsOrder(order)
    ensures var s1 := Unstale(s, nodeID, report, removeOk, answers.forgetOk, order);
            var s' := Sync(s, nodeID, report, removeOk, answers, order).0;
            s' == s1.(pending := s'.pending, db := s1.db.(pending := s'.db.pending))
  {
    var s1 := Unstale(s, nodeID, report, removeOk, answers.forgetOk, order);
    var s2 := CleanAndReload(s1, nodeID, report, answers, order);
    ResolveAllFrame(s2, order(s2.nets), order, []);
  }

  /**
   * A reconciliation frees the instances that the node has and does not report, each once; s1 is the state
   * after that. What follows changes records only.
   */
  lemma SyncExactly(s: State, nodeID: NodeID, report: seq<InstanceReport>, removeOk: InstanceIdent -> bool,
                    answers: Answers, order: Order) returns (slots: seq<Slot>, s1: State)
    requires TablesOk(s.nets, s.db) && IsOrder(order)
    ensures NoDup(slots) && (forall k :: k in slots <==> Unreported(s.nets, nodeID, report, k))
    ensures forall k | k in slots :: Held(s.nets, k)
    ensures AddressesFreed(s.nets, slots, s, s1)
    ensures RowsFreed(slots, removeOk, Both(removeOk, answers.forgetOk), s, s1)
    ensures forall k :: Held(s1.nets, k) <==>
                        Held(s.nets, k) && !(Unreported(s.nets, nodeID, report, k) && removeOk(k.ident))
    ensures forall k | Held(s1.nets, k) :: At(s1.nets, k) == At(s.nets, k)
    ensures var s' := Sync(s, nodeID, report, removeOk, answers, order).0;
            s' == s1.(pending := s'.pending, db := s1.db.(pending := s'.db.pending))
  {
    var inv := (t: State) => TablesOk(t.nets, t.db);
    slots := Filter(order(s.nets), StaleSlots(nodeID, report));
    s1 := Unstale(s, nodeID, report, removeOk, answers.forgetOk, order);
    UnreportedMembers(s.nets, nodeID, report, order);
    TablesFreeEachAlone(removeOk, answers.forgetOk, order);
    ReleaseAllExactly(inv, s, slots, nodeID, removeOk, answers.forgetOk, order);
    TablesReleasesHold(removeOk, answers.forgetOk, order);
    ReleaseAllReleases(inv, _ => true, s, slots, nodeID, removeOk, answers.forgetOk, order);
    SyncFrame(s, nodeID, report, removeOk, answers, order);
  }

  /** An address loses its names exactly if an instance with it is not reported; the others keep theirs. */
  lemma SyncNames(s: State, nodeID: NodeID, report: seq<InstanceReport>, removeOk: InstanceIdent -> bool,
                  answers: Answers, order: Order, a: Addr)
    requires TablesOk(s.nets, s.db) && IsOrder(order)
    ensures var s' := Sync(s, nodeID, report, removeOk, answers, order).0;
            NamesAt(s'.names, a) ==
            if exists k :: Unreported(s.nets, nodeID, report, k) && At(s.nets, k).ip == a then []
            else NamesAt(s.names, a)
  {
    var slots, s1 := SyncExactly(s, nodeID, report, removeOk, answers, order);
    assert a in s1.names <==> a in s.names && !AddressAmong(s.nets, slots, a);
  }

  // Connections that can be resolved

  /** The record waits for the item, and the walk finds a rule for it now. */
  ghost predicate Solvable(nets: Nets, order: seq<Slot>, itemID: string, p: PendingConnection)
    requires forall k | k in order :: Held(nets, k)
  {
    && p.target == itemID
    && exists rule ::
         IsRuleFor(nets, order, Query(p.target, p.port, p.protocol, p.requesterSubnet, p.requesterIP), rule)
  }

  lemma SolvableExactly(nets: Nets, order: seq<Slot>, itemID: string, p: PendingConnection)
    requires Enumerates(order, nets)
    ensures Solvable(nets, order, itemID, p) <==> Resolvable(nets, order, itemID, p)
  {
    if RuleFor(nets, order, p).Some? {
      RuleForExactly(nets, order, p, RuleFor(nets, order, p).value);
    }
    if Solvable(nets, order, itemID, p) {
      var rule :|
        IsRuleFor(nets, order, Query(p.target, p.port, p.protocol, p.requesterSubnet, p.requesterIP), rule);
      RuleForExactly(nets, order, p, rule);
    }
  }

  /** The solvable records leave memory with all their copies; nothing else changes, the table least of all. */
  lemma ResolveExactly(s: State, itemID: string, order: Order, p: PendingConnection)
    requires IsOrder(order)
    ensures var s' := Resolve(s, itemID, order).0;
            && s' == s.(pending := s'.pending)
            && multiset(s'.pending)[p] ==
               if Solvable(s.nets, order(s.nets), itemID, p) then 0 else multiset(s.pending)[p]
  {
    assert Enumerates(order(s.nets), s.nets);
    SolvableExactly(s.nets, order(s.nets), itemID, p);
    FilterCount(s.pending, Unresolvable(s.nets, order(s.nets), itemID), p);
  }

  ghost function SolvableFor(nets: Nets, order: seq<Slot>, itemID: string, ident: InstanceIdent)
    : PendingConnection -> bool
    requires forall k | k in order :: Held(nets, k)
  {
    (p: PendingConnection) => p.requester == ident && Solvable(nets, order, itemID, p)
  }

  /** The update of a requester has the rules of its solvable records, one each, and goes to the last one's node. */
  lemma ResolvedUpdate(s: State, itemID: string, order: Order, ident: InstanceIdent)
    returns (rules: seq<FirewallRule>)
    requires IsOrder(order)
    ensures var (u, solved) := (Resolve(s, itemID, order).1,
                                Filter(s.pending, SolvableFor(s.nets, order(s.nets), itemID, ident)));
            && |rules| == |solved|
            && (forall i | 0 <= i < |solved| ::
                  var p := solved[i];
                  IsRuleFor(s.nets, order(s.nets),
                            Query(p.target, p.port, p.protocol, p.requesterSubnet, p.requesterIP), rules[i]))
            && (ident in u <==> solved != [])
            && (solved != [] ==> u[ident] == FirewallUpdate(solved[|solved| - 1].nodeID, rules))
  {
    var walk := order(s.nets);
    assert Enumerates(walk, s.nets);
    rules := CollectExactly(s.nets, walk, itemID, s.pending, map[], ident);
    assert [] + rules == rules;
    CollectAddressed(s.nets, walk, itemID, s.pending, map[], ident);
    forall p | p in s.pending
      ensures SolvableFor(s.nets, walk, itemID, ident)(p) == Solved(s.nets, walk, itemID, ident)(p)
    {
      SolvableExactly(s.nets, walk, itemID, p);
    }
    FilterSame(s.pending, SolvableFor(s.nets, walk, itemID, ident), Solved(s.nets, walk, itemID, ident));
    var solved := Filter(s.pending, Solved(s.nets, walk, itemID, ident));
    forall i | 0 <= i < |solved|
      ensures IsRuleFor(s.nets, walk, QueryOf(solved[i]), rules[i])
    {
      RuleForExactly(s.nets, walk, solved[i], rules[i]);
    }
  }

  /** The record waits for the item of one of the instances, and there is a rule for it now. */
  ghost predicate SolvableAmong(nets: Nets, order: seq<Slot>, slots: seq<Slot>, p: PendingConnection)
    requires forall k | k in order :: Held(nets, k)
  {
    exists k | k in slots :: Solvable(nets, order, k.ident.itemID, p)
  }

  /** The final round takes the records from memory that are solvable for one of the instances. */
  lemma {:induction false} ResolveAllExactly(s: State, slots: seq<Slot>, order: Order, pushed: seq<Updates>,
                                             p: PendingConnection)
    requires IsOrder(order)
    ensures var (s', pushed') := ResolveAll(s, slots, order, pushed);
            && s' == s.(pending := s'.pending)
            && multiset(s'.pending)[p] ==
               (if SolvableAmong(s.nets, order(s.nets), slots, p) then 0 else multiset(s.pending)[p])
            && |pushed'| == |pushed| + |slots| && pushed <= pushed'
    decreases slots
  {
    if slots != [] {
      var (s1, updates) := Resolve(s, slots[0].ident.itemID, order);
      assert slots[0] in slots && slots == [slots[0]] + slots[1..];
      ResolveExactly(s, slots[0].ident.itemID, order, p);
      ResolveAllExactly(s1, slots[1..], order, pushed + [updates], p);
      assert pushed <= pushed + [updates];
    }
  }

  /** Each rule of an update is one of a record of its requester that waits for the item. */
  ghost predicate StemsFrom(nets: Nets, order: seq<Slot>, itemID: string, ps: seq<PendingConnection>, u: Updates)
    requires forall k | k in order :: Held(nets, k)
  {
    forall i, rule | i in u && rule in u[i].rules ::
      exists p | p in ps ::
        && p.requester == i && p.target == itemID
        && IsRuleFor(nets, order, Query(p.target, p.port, p.protocol, p.requesterSubnet, p.requesterIP), rule)
  }

  lemma UpdateStems(s: State, itemID: string, order: Order)
    requires IsOrder(order)
    ensures StemsFrom(s.nets, order(s.nets), itemID, s.pending, Resolve(s, itemID, order).1)
  {
    var walk, u := order(s.nets), Resolve(s, itemID, order).1;
    assert Enumerates(walk, s.nets);
    forall i, rule | i in u && rule in u[i].rules
      ensures exists p | p in s.pending ::
                && p.requester == i && p.target == itemID
                && IsRuleFor(s.nets, walk, Query(p.target, p.port, p.protocol, p.requesterSubnet, p.requesterIP), rule)
    {
      CollectSound(s.nets, walk, itemID, s.pending, map[], i, rule);
      var p :| p in s.pending && p.requester == i && Resolvable(s.nets, walk, itemID, p) &&
               RuleFor(s.nets, walk, p).value == rule;
      RuleForExactly(s.nets, walk, p, rule);
    }
  }

  lemma {:induction false} ResolvedKeep(s: State, slots: seq<Slot>, order: Order, pushed: seq<Updates>)
    requires IsOrder(order)
    ensures var pushed' := ResolveAll(s, slots, order, pushed).1;
            |pushed'| == |pushed| + |slots| && pushed <= pushed'
    decreases slots
  {
    if slots != [] {
      var (s1, updates) := Resolve(s, slots[0].ident.itemID, order);
      assert pushed <= pushed + [updates];
      ResolvedKeep(s1, slots[1..], order, pushed + [updates]);
    }
  }

  /** Nothing but that is pushed, one update map for each instance that is looked at. */
  lemma {:induction false} ResolveAllSound(s: State, slots: seq<Slot>, order: Order, pushed: seq<Updates>, i: nat)
    requires IsOrder(order) && i < |slots|
    ensures |ResolveAll(s, slots, order, pushed).1| == |pushed| + |slots|
    ensures StemsFrom(s.nets, order(s.nets), slots[i].ident.itemID, s.pending,
                      ResolveAll(s, slots, order, pushed).1[|pushed| + i])
    decreases slots
  {
    var item := slots[0].ident.itemID;
    var (s1, updates) := Resolve(s, item, order);
    if i == 0 {
      UpdateStems(s, item, order);
      ResolvedKeep(s1, slots[1..], order, pushed + [updates]);
    } else {
      ResolveAllSound(s1, slots[1..], order, pushed + [updates], i - 1);
      forall p | p in s1.pending
        ensures p in s.pending
      {
        FilterMember(s.pending, Unresolvable(s.nets, order(s.nets), item), p);
      }
    }
  }

  lemma CleanedExactly(s: State, nodeID: NodeID, report: seq<InstanceReport>, answers: Answers, order: Order,
                       p: PendingConnection)
    requires IsOrder(order) && forall q | q in s.db.pending && SamePartialKey(q, p) :: q == p
    ensures var l' := CleanedLists(s, nodeID, report, answers, order);
            var confirmed := answers.readOk && Confirmed(s.nets, order(s.nets), nodeID, report, p);
            var deleted := exists i :: 0 <= i < |s.db.pending| && s.db.pending[i] == p && answers.removeOk(i);
            var (m, r) := (multiset(s.pending)[p], multiset(s.db.pending)[p]);
            && multiset(l'.rows)[p] == (if confirmed && deleted then 0 else r)
            && multiset(l'.memory)[p] == if !confirmed then m else if r <= m then m - r else 0
  {
    var l, rows := Lists(s.pending, s.db.pending), s.db.pending;
    assert Enumerates(order(s.nets), s.nets);
    if answers.readOk {
      CleanMemory(s.nets, order(s.nets), nodeID, report, rows, 0, answers.removeOk, l, p);
      CleanRows(s.nets, order(s.nets), nodeID, report, rows, 0, answers.removeOk, l, p);
      assert rows[0..] == rows;
    }
  }

  /**
   * Cleanup and reload: memory forgets one copy of a confirmed record for each row that was read, the table all
   * rows if one deletion succeeds; then memory gets one copy of each stored record of the node that it lacks.
   */
  lemma CleanAndReloadExactly(s: State, nodeID: NodeID, report: seq<InstanceReport>, answers: Answers, order: Order,
                              p: PendingConnection)
    requires IsOrder(order) && forall q | q in s.db.pending && SamePartialKey(q, p) :: q == p
    ensures var s' := CleanAndReload(s, nodeID, report, answers, order);
            var confirmed := answers.readOk && Confirmed(s.nets, order(s.nets), nodeID, report, p);
            var deleted := exists i :: 0 <= i < |s.db.pending| && s.db.pending[i] == p && answers.removeOk(i);
            var (m, r) := (multiset(s.pending)[p], multiset(s.db.pending)[p]);
            var kept := if !confirmed then m else if r <= m then m - r else 0;
            && s' == s.(pending := s'.pending, db := s.db.(pending := s'.db.pending))
            && multiset(s'.db.pending)[p] == (if confirmed && deleted then 0 else r)
            && multiset(s'.pending)[p] ==
               if answers.reloadOk && p.nodeID == nodeID && p in s'.db.pending && kept == 0 then 1 else kept
  {
    CleanedExactly(s, nodeID, report, answers, order, p);
    var l' := CleanedLists(s, nodeID, report, answers, order);
    ReloadExactly(nodeID, l'.rows, l'.memory);
    assert p in l'.memory <==> multiset(l'.memory)[p] > 0;
  }

  /** The last two parts of a reconciliation, s1 being the state after the releases. */
  lemma SyncRecordsExactly(s: State, nodeID: NodeID, report: seq<InstanceReport>, removeOk: InstanceIdent -> bool,
                           answers: Answers, order: Order, p: PendingConnection)
    requires IsOrder(order)
    ensures var s1 := Unstale(s, nodeID, report, removeOk, answers.forgetOk, order);
            var (s2, walk) := (CleanAndReload(s1, nodeID, report, answers, order), order(s1.nets));
            var (s', pushed) := Sync(s, nodeID, report, removeOk, answers, order);
            && s' == s2.(pending := s'.pending)
            && multiset(s'.pending)[p] ==
               (if exists k :: Held(s1.nets, k) && Solvable(s1.nets, walk, k.ident.itemID, p) then 0
                else multiset(s2.pending)[p])
            && |pushed| == |walk|
            && forall i | 0 <= i < |walk| :: StemsFrom(s1.nets, walk, walk[i].ident.itemID, s2.pending, pushed[i])
  {
    var s1 := Unstale(s, nodeID, report, removeOk, answers.forgetOk, order);
    var s2, walk := CleanAndReload(s1, nodeID, report, answers, order), order(s1.nets);
    assert Enumerates(walk, s1.nets);
    ResolveAllExactly(s2, walk, order, [], p);
    forall i | 0 <= i < |walk|
      ensures StemsFrom(s1.nets, walk, walk[i].ident.itemID, s2.pending, ResolveAll(s2, walk, order, []).1[i])
    {
      ResolveAllSound(s2, walk, order, [], i);
    }
  }
}
