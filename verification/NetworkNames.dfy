/**
 * Host names: none stands twice and each belongs to the address of an instance, whatever fails.
 */
module NetworkNames {
  import opened Cidr
  import opened Seqs
  import opened IpSubnets
  import opened NetworkTypes
  import opened NetworkDatabase
  import opened FirewallRules
  import opened NetworkSpec
  import opened NetworkInvariant
  import opened NetworkSteps

  // Adding names

  lemma {:induction false} AddNamesOnly(names: HostNames, ip: Addr, wanted: seq<string>)
    requires NamesUnique(names)
    ensures var names' := AddNames(names, ip, wanted).0;
            && NamesUnique(names')
            && names.Keys <= names'.Keys <= names.Keys + {ip}
            && (forall a | a in names && a != ip :: names'[a] == names[a])
    decreases wanted
  {
    if wanted != [] && !NameTaken(names, wanted[0]) {
      AddNamesOnly(names[ip := NamesAt(names, ip) + [wanted[0]]], ip, wanted[1..]);
    }
  }

  /** All wanted names are given to the address, or one of them is taken and the call fails. */
  lemma {:induction false} AddNamesGives(names: HostNames, ip: Addr, wanted: seq<string>)
    ensures var (names', ok) := AddNames(names, ip, wanted);
            ok ==> NamesAt(names', ip) == NamesAt(names, ip) + wanted
    decreases wanted
  {
    if wanted == [] {
      assert NamesAt(names, ip) + wanted == NamesAt(names, ip);
    } else if !NameTaken(names, wanted[0]) {
      AddNamesGives(names[ip := NamesAt(names, ip) + [wanted[0]]], ip, wanted[1..]);
      assert NamesAt(names, ip) + [wanted[0]] + wanted[1..] == NamesAt(names, ip) + wanted;
    }
  }

  lemma TakenAfterAdd(names: HostNames, ip: Addr, name: string)
    ensures var names' := names[ip := NamesAt(names, ip) + [name]];
            forall w :: NameTaken(names', w) <==> NameTaken(names, w) || w == name
  {
    var names' := names[ip := NamesAt(names, ip) + [name]];
    forall w
      ensures NameTaken(names', w) <==> NameTaken(names, w) || w == name
    {
      if NameTaken(names, w) {
        var a :| a in names && w in names[a];
        assert w in names'[a];
      }
      assert name in names'[ip];
    }
  }

  /** All wanted host names are different and new: then, and only then, they are given. */
  lemma {:induction false} AddNamesIff(names: HostNames, ip: Addr, wanted: seq<string>)
    ensures AddNames(names, ip, wanted).1 <==> NoDup(wanted) && forall w | w in wanted :: !NameTaken(names, w)
    decreases wanted
  {
    if wanted != [] && !NameTaken(names, wanted[0]) {
      var names' := names[ip := NamesAt(names, ip) + [wanted[0]]];
      TakenAfterAdd(names, ip, wanted[0]);
      AddNamesIff(names', ip, wanted[1..]);
      assert wanted == [wanted[0]] + wanted[1..];
      if wanted[0] in wanted[1..] {
        assert NameTaken(names', wanted[0]) && !NoDup(wanted);
      } else {
        assert NoDup(wanted) <==> NoDup(wanted[1..]) by {
          assert forall i | 0 < i < |wanted| :: wanted[i] == wanted[1..][i - 1];
        }
      }
    } else if wanted != [] {
      assert wanted[0] in wanted;
    }
  }

  /** No other address is concerned. */
  lemma {:induction false} AddNamesElsewhere(names: HostNames, ip: Addr, wanted: seq<string>)
    ensures forall a | a != ip :: NamesAt(AddNames(names, ip, wanted).0, a) == NamesAt(names, a)
    decreases wanted
  {
    if wanted != [] && !NameTaken(names, wanted[0]) {
      AddNamesElsewhere(names[ip := NamesAt(names, ip) + [wanted[0]]], ip, wanted[1..]);
    }
  }

  lemma AddNamesUndone(names: HostNames, ip: Addr, wanted: seq<string>)
    requires NamesUnique(names) && ip !in names
    ensures AddNames(names, ip, wanted).0 - {ip} == names
  {
    AddNamesOnly(names, ip, wanted);
  }

  lemma AddNamesReset(names: HostNames, ip: Addr, wanted: seq<string>)
    requires NamesUnique(names)
    ensures AddNames(names - {ip}, ip, wanted).0[ip := NamesAt(names, ip)] == names[ip := NamesAt(names, ip)]
    ensures NamesUnique(names - {ip}) && NamesUnique(names[ip := NamesAt(names, ip)])
  {
    AddNamesOnly(names - {ip}, ip, wanted);
  }

  // Names and the instances they belong to

  lemma NamesWithMore(nets: Nets, nets': Nets, names: HostNames, names': HostNames, k: Slot)
    requires NamesOk(nets, names) && OneMore(nets, nets', k)
    requires NamesUnique(names') && names'.Keys <= names.Keys + {At(nets', k).ip}
    ensures NamesOk(nets', names')
  {
    forall a | a in names'
      ensures exists j :: HolderOf(nets', j, a)
    {
      if a in names {
        var j :| HolderOf(nets, j, a);
        assert HolderOf(nets', j, a);
      } else {
        assert HolderOf(nets', k, a);
      }
    }
  }

  lemma NamesWithout(nets: Nets, nets': Nets, names: HostNames, k: Slot)
    requires NamesOk(nets, names) && OneMore(nets', nets, k) && Held(nets, k)
    ensures NamesOk(nets', names - {At(nets, k).ip})
  {
    var ip := At(nets, k).ip;
    forall a | a in names - {ip}
      ensures exists j :: HolderOf(nets', j, a)
    {
      var j :| HolderOf(nets, j, a);
      assert HolderOf(nets', j, a);
    }
  }

  lemma NamesSame(nets: Nets, nets': Nets, names: HostNames)
    requires NamesOk(nets, names) && SameInstances(nets, nets')
    ensures NamesOk(nets', names)
  {
    forall a | a in names
      ensures exists j :: HolderOf(nets', j, a)
    {
      var j :| HolderOf(nets, j, a);
      assert HolderOf(nets', j, a);
    }
  }

  // Each section

  lemma NameInstall(s: State, k: Slot, ip: Addr, dnsServers: seq<string>, req: Request, env: Env)
    requires NamesOk(s.nets, s.names) && IsOrder(env.order)
    requires HasHost(s.nets, HostKey(k.networkID, k.nodeID)) && !Held(s.nets, k)
    ensures var s' := Install(s, k, ip, dnsServers, req, env).0; NamesOk(s'.nets, s'.names)
  {
    AddNamesOnly(s.names, ip, req.hostNames);
    if Install(s, k, ip, dnsServers, req, env).1.Failure? {
      InstallFailed(s, k, ip, dnsServers, req, env);
    } else {
      var x, unresolved := InstallCases(s, k, ip, dnsServers, req, env);
      LookupAfterPut(s.nets, k, x);
      NamesWithMore(s.nets, PutInstance(s.nets, k, x), s.names, AddNames(s.names, ip, req.hostNames).0, k);
    }
  }

  lemma NameRefresh(s: State, k: Slot, req: Request, env: Env)
    requires NamesOk(s.nets, s.names) && IsOrder(env.order) && Held(s.nets, k)
    ensures var s' := Refresh(s, k, req, env).0; NamesOk(s'.nets, s'.names)
  {
    var ip := At(s.nets, k).ip;
    var names := AddNames(s.names - {ip}, ip, req.hostNames).0;
    AddNamesReset(s.names, ip, req.hostNames);
    AddNamesOnly(s.names - {ip}, ip, req.hostNames);
    assert OneMore(s.nets, s.nets, k);
    NamesWithMore(s.nets, s.nets, s.names, names, k);
    NamesWithMore(s.nets, s.nets, s.names, names[ip := NamesAt(s.names, ip)], k);
    var unresolved := RefreshCases(s, k, req, env);
  }

  lemma NameMigrate(s: State, k: Slot, j: Slot, req: Request, env: Env)
    requires NamesOk(s.nets, s.names) && IsOrder(env.order) && Held(s.nets, j) && Matches(j, k, Elsewhere)
    requires HasHost(s.nets, HostKey(k.networkID, k.nodeID)) && !Held(s.nets, k)
    ensures var s' := Migrate(s, k, j, req, env).0; NamesOk(s'.nets, s'.names)
  {
    var x := At(s.nets, j);
    LookupAfterDrop(s.nets, j);
    NamesWithout(s.nets, DropInstance(s.nets, j), s.names, j);
    MigrateCases(s, k, j, req, env);
    if DeleteInstance(s.db, k.ident, env.removeInstanceOk).1 {
      NameInstall(Unplaced(s, k, j, env.answers.forgetOk), k, x.ip, x.dnsServers, req, env);
    }
  }

  lemma NameAllocate(s: State, k: Slot, req: Request, env: Env)
    requires NamesOk(s.nets, s.names) && IsOrder(env.order)
    ensures var s' := Allocate(s, k, req, env).0; NamesOk(s'.nets, s'.names)
  {
    var j := AllocateCases(s, k, req, env);
    if HasHost(s.nets, HostKey(k.networkID, k.nodeID)) {
      if Held(s.nets, k) {
        NameRefresh(s, k, req, env);
      } else if j.Some? {
        NameMigrate(s, k, j.value, req, env);
      } else if TakeIP(s.ip, k.networkID).Some? {
        var (ip, ips) := TakeIP(s.ip, k.networkID).value;
        NameInstall(s.(ip := ips), k, ip, [env.dnsIP], req, env);
      }
    }
  }

  lemma NameRelease(s: State, ident: InstanceIdent, nodeID: NodeID, removeOk: bool, forgetOk: InstanceIdent -> bool,
                    order: Order)
    requires NamesOk(s.nets, s.names) && IsOrder(order)
    ensures var s' := ReleaseInstance(s, ident, nodeID, removeOk, forgetOk, order).0; NamesOk(s'.nets, s'.names)
  {
    var k := ReleaseCases(s, ident, nodeID, removeOk, forgetOk, order);
    if k.Some? {
      LookupAfterDrop(s.nets, k.value);
      NamesWithout(s.nets, DropInstance(s.nets, k.value), s.names, k.value);
    }
  }

  lemma NameGetNode(s: State, networkID: NetworkID, nodeID: NodeID, e: NodeInput)
    requires NamesOk(s.nets, s.names)
    ensures var s' := GetNodeNetworkParams(s, networkID, nodeID, e).0; NamesOk(s'.nets, s'.names)
  {
    if WritesRow(s, networkID, nodeID, e) {
      var host, network := GetNodeCases(s, networkID, nodeID, e);
      if networkID in s.nets {
        LookupAfterPutHost(s.nets, networkID, host);
        NamesSame(s.nets, PutHost(s.nets, networkID, host), s.names);
      } else {
        LookupAfterNewNetwork(s.nets, network, host);
        NamesSame(s.nets, s.nets[networkID := FirstHost(network, host)], s.names);
      }
    }
  }

  /** The loop takes names away only from addresses of its instances, and when it ends none is left on them. */
  lemma {:induction false} ReleaseRowsNames(s: State, slots: seq<Slot>, failAt: nat, forgetOk: InstanceIdent -> bool)
    requires forall k | k in slots :: Held(s.nets, k)
    ensures var (s', ok) := ReleaseRows(s, slots, failAt, forgetOk);
            && s'.names.Keys <= s.names.Keys && (forall a | a in s'.names :: s'.names[a] == s.names[a])
            && (forall a | a in s.names && a !in s'.names :: exists k | k in slots :: At(s.nets, k).ip == a)
            && (ok ==> forall k | k in slots :: At(s.nets, k).ip !in s'.names)
    decreases slots
  {
    if slots != [] {
      var (s1, ok) := ReleaseRow(s, slots[0], failAt != 0, forgetOk);
      assert slots == [slots[0]] + slots[1..];
      if ok {
        ReleaseRowsNames(s1, slots[1..], failAt - 1, forgetOk);
      }
    }
  }

  lemma NamesWithoutHost(nets: Nets, h: HostKey, names: HostNames, slots: seq<Slot>, names': HostNames)
    requires NamesOk(nets, names) && HasHost(nets, h) && ListsHost(slots, nets, h)
    requires names'.Keys <= names.Keys && forall a | a in names' :: names'[a] == names[a]
    requires forall k | k in slots :: At(nets, k).ip !in names'
    ensures NamesOk(DropHost(nets, h), names')
  {
    var nets' := DropHost(nets, h);
    forall a | a in names'
      ensures exists j :: HolderOf(nets', j, a)
    {
      var j :| HolderOf(nets, j, a);
      assert j !in slots;
      assert HolderOf(nets', j, a);
    }
  }

  lemma NameReleaseNode(s: State, h: HostKey, failAt: nat, forgetOk: InstanceIdent -> bool, order: Order)
    requires NamesOk(s.nets, s.names) && IsOrder(order)
    ensures var s' := ReleaseNode(s, h, failAt, forgetOk, order).0; NamesOk(s'.nets, s'.names)
  {
    if HasHost(s.nets, h) {
      var slots := ReleaseNodeCases(s, h, failAt, forgetOk, order);
      ReleaseRowsNames(s, slots, failAt, forgetOk);
      var (s1, ok) := ReleaseRows(s, slots, failAt, forgetOk);
      if ok && DeleteHost(s1.db, h, failAt != |slots|).1 {
        RemoveHostCases(s1, h, failAt, |slots|);
        NamesWithoutHost(s.nets, h, s.names, slots, s1.names);
        if LastHost(s1, h) {
          LookupAfterDropNetwork(DropHost(s.nets, h), h.networkID);
          NamesSame(DropHost(s.nets, h), DropHost(s.nets, h) - {h.networkID}, s1.names);
        }
      }
    }
  }
}
