/**
 * Runs that show what the code does: a move that breaks the address partition with nothing failing, and
 * releases that break it when the storage fails.
 */
module NetworkExamples {
  import opened Wrappers
  import opened NetPool
  import opened Seqs
  import opened IpSubnets
  import opened NetworkTypes
  import opened FirewallRules
  import opened NetworkSpec
  import opened NetworkInvariant
  import opened NetworkSteps
  import opened NetworkTables
  import opened NetworkRecords
  import opened NetworkAddresses
  import opened NetworkRestart
  import opened NetworkRuns

  // An order exists, and a move is reachable

  lemma {:induction false} Listed<T(!new)>(s: set<T>) returns (list: seq<T>)
    ensures NoDup(list) && forall x :: x in list <==> x in s
  {
    if s == {} {
      list := [];
    } else {
      var x :| x in s;
      var rest := Listed(s - {x});
      list := rest + [x];
    }
  }

  ghost function Slots(nets: Nets): set<Slot> {
    set n, d, i | n in nets && d in nets[n].hosts && i in nets[n].hosts[d].instances :: Slot(n, d, i)
  }

  lemma Listing(nets: Nets)
    ensures exists order :: Enumerates(order, nets)
  {
    var order := Listed(Slots(nets));
    forall k
      ensures k in order <==> Held(nets, k)
    {
      assert Slot(k.networkID, k.nodeID, k.ident) == k;
    }
    assert Enumerates(order, nets);
  }

  ghost function AnyOrder(nets: Nets): (order: seq<Slot>)
    ensures Enumerates(order, nets)
  {
    Listing(nets);
    var order :| Enumerates(order, nets);
    order
  }

  lemma OrderExists() returns (order: Order)
    ensures IsOrder(order)
  {
    order := (nets: Nets) => AnyOrder(nets);
  }

  const NET: NetworkID := "network"
  const NODE_A: NodeID := "a"
  const NODE_B: NodeID := "b"
  const IDENT: InstanceIdent := InstanceIdent("item", "subject", 0, "service", false)
  const ALL_OK: NodeInput := NodeInput(Some(1), Some([]), true, true)
  const PLAIN: Request := Request.Request([], [], Some([]))

  /** Nothing fails. */
  ghost predicate AllGood(env: Env) {
    && IsOrder(env.order) && env.dnsOk && env.addInstanceOk && InsertsOk(env)
    && forall i: InstanceIdent :: env.answers.forgetOk(i)
  }

  lemma FirstRequest()
    ensures var r := RequestSubnet(FirstStart().ip, NET, Some([]));
            r.Some? && NET in r.value.1.used && |r.value.1.used[NET].ips| > 3
  {
    HostAddressesComplete(PrivatePool()[0]);
    SizeOf16();
    assert !Routed(PrivatePool()[0], []);
  }

  lemma FirstNode()
    ensures var s := Step(FirstStart(), GetNode(NET, NODE_A, ALL_OK));
            && s.nets.Keys == {NET} && s.nets[NET].hosts.Keys == {NODE_A}
            && s.nets[NET].hosts[NODE_A].instances == map[] && s.names == map[]
            && NET in s.ip.used && |s.ip.used[NET].ips| > 2
  {
    FirstRequest();
  }

  lemma SecondNode(s: State)
    requires NET in s.nets && !HasHost(s.nets, HostKey(NET, NODE_B)) && NET in s.ip.used && |s.ip.used[NET].ips| > 1
    ensures var s' := Step(s, GetNode(NET, NODE_B, ALL_OK));
            && SameInstances(s.nets, s'.nets)
            && (forall h :: HasHost(s'.nets, h) <==> HasHost(s.nets, h) || h == HostKey(NET, NODE_B))
            && s'.names == s.names && NET in s'.ip.used && |s'.ip.used[NET].ips| > 0
  {
    LookupAfterPutHost(s.nets, NET, Host(NODE_B, s.ip.used[NET].ips[0]));
  }

  /** The state before the first instance. */
  ghost predicate TwoNodes(s: State) {
    && HasHost(s.nets, HostKey(NET, NODE_A)) && HasHost(s.nets, HostKey(NET, NODE_B))
    && (forall k :: !Held(s.nets, k)) && TakeIP(s.ip, NET).Some? && s.names == map[]
  }

  /** The invariant holds, and the tables say what memory says. */
  ghost predicate InvAndMirror(s: State) {
    Inv(s) && RowsComplete(s.nets, s.db)
  }

  lemma CleanInStep(s: State, a: Action)
    requires InvAndMirror(s) && Possible(s, a) && Clean(s, a) && InStep(s, a) && Inserts(a) && !Strands(s, a)
    ensures InvAndMirror(Step(s, a))
  {
    StepIff(s, a);
    StepMirrored(s, a);
  }

  lemma AddedNode(s: State, nodeID: NodeID)
    requires InvAndMirror(s)
    ensures InvAndMirror(Step(s, GetNode(NET, nodeID, ALL_OK)))
  {
    assert !StorageFails(s, NET, ALL_OK);
    CleanInStep(s, GetNode(NET, nodeID, ALL_OK));
  }

  lemma TwoNodesReachable(s: State, s': State)
    requires s == Step(FirstStart(), GetNode(NET, NODE_A, ALL_OK)) && s' == Step(s, GetNode(NET, NODE_B, ALL_OK))
    ensures TwoNodes(s')
  {
    FirstNode();
    SecondNode(s);
  }

  /** A new instance is the only slot and host change. */
  lemma InstalledOnce(s: State, k: Slot, req: Request, env: Env)
    requires IsOrder(env.order) && HasHost(s.nets, HostKey(k.networkID, k.nodeID)) && forall j :: !Held(s.nets, j)
    requires !Allocate(s, k, req, env).1.Failure?
    ensures var s' := Allocate(s, k, req, env).0;
            SameHosts(s.nets, s'.nets) && OneMore(s.nets, s'.nets, k)
  {
    var j := AllocateCases(s, k, req, env);
    var (ip, ips) := TakeIP(s.ip, k.networkID).value;
    var x, unresolved := InstallCases(s.(ip := ips), k, ip, [env.dnsIP], req, env);
    LookupAfterPut(s.nets, k, x);
  }

  lemma FirstAccepted(s: State, k: Slot, env: Env)
    requires Mirror(s.nets, s.db) && HasHost(s.nets, HostKey(k.networkID, k.nodeID)) && forall j :: !Held(s.nets, j)
    requires env.dnsOk && env.addInstanceOk
    ensures Acceptable(s, k, PLAIN, env)
  {
  }

  lemma FirstAllocated(s: State, env: Env)
    requires Mirror(s.nets, s.db) && TwoNodes(s) && IsOrder(env.order) && env.dnsOk && env.addInstanceOk
    ensures Allocate(s, Slot(NET, NODE_A, IDENT), PLAIN, env).1.Allocated?
  {
    FirstAccepted(s, Slot(NET, NODE_A, IDENT), env);
    AllocatedIff(s, Slot(NET, NODE_A, IDENT), PLAIN, env);
  }

  lemma FirstInstance(s: State, env: Env)
    requires Mirror(s.nets, s.db) && TwoNodes(s) && IsOrder(env.order) && env.dnsOk && env.addInstanceOk
    ensures var k := Slot(NET, NODE_A, IDENT);
            var s' := Step(s, AllocateAt(k, PLAIN, env));
            HasHost(s'.nets, HostKey(NET, NODE_B)) && OneMore(s.nets, s'.nets, k)
  {
    FirstAllocated(s, env);
    InstalledOnce(s, Slot(NET, NODE_A, IDENT), PLAIN, env);
  }

  lemma FirstInstanceInv(s: State, env: Env)
    requires InvAndMirror(s) && TwoNodes(s) && AllGood(env)
    ensures InvAndMirror(Step(s, AllocateAt(Slot(NET, NODE_A, IDENT), PLAIN, env)))
  {
    CleanInStep(s, AllocateAt(Slot(NET, NODE_A, IDENT), PLAIN, env));
  }

  /** The addresses are not partitioned any more; names, tables and records are in order. */
  ghost predicate OnlyAddressesBreak(s: State) {
    !Partitioned(s) && NamesOk(s.nets, s.names) && Mirror(s.nets, s.db) && Tracked(s)
  }

  lemma MoveBreaks(s: State, env: Env)
    requires InvAndMirror(s) && HasHost(s.nets, HostKey(NET, NODE_B)) && AllGood(env)
    requires Held(s.nets, Slot(NET, NODE_A, IDENT)) && !Held(s.nets, Slot(NET, NODE_B, IDENT))
    ensures OnlyAddressesBreak(Step(s, AllocateAt(Slot(NET, NODE_B, IDENT), PLAIN, env)))
  {
    var k := Slot(NET, NODE_B, IDENT);
    assert Matches(Slot(NET, NODE_A, IDENT), k, Elsewhere);
    StepPartitioned(s, AllocateAt(k, PLAIN, env));
    StepNames(s, AllocateAt(k, PLAIN, env));
    StepMirrored(s, AllocateAt(k, PLAIN, env));
    StepTracked(s, AllocateAt(k, PLAIN, env));
  }

  /** What one step does, without saying which. */
  ghost predicate Follows(s: State, a: Action, s': State) {
    Possible(s, a) && s' == Step(s, a)
  }

  ghost predicate Spoilt(s: State, s': State) {
    InvAndMirror(s) && OnlyAddressesBreak(s')
  }

  ghost predicate AllFollow(states: seq<State>, actions: seq<Action>) {
    |states| == |actions| + 1 && forall i | 0 <= i < |actions| :: Follows(states[i], actions[i], states[i + 1])
  }

  lemma FollowedRun(states: seq<State>, actions: seq<Action>)
    requires AllFollow(states, actions) && states[0] == FirstStart()
    ensures IsRun(states, actions)
  {
    forall i | 0 <= i < |actions|
      ensures Possible(states[i], actions[i]) && states[i + 1] == Step(states[i], actions[i])
    {
      assert Follows(states[i], actions[i], states[i + 1]);
    }
  }

  lemma RunOfFour(s: State, t: State, u: State, v: State, a: Action, b: Action, c: Action, d: Action)
    requires Follows(FirstStart(), a, s) && Follows(s, b, t) && Follows(t, c, u) && Follows(u, d, v)
    ensures IsRun([FirstStart(), s, t, u, v], [a, b, c, d])
  {
    FollowedRun([FirstStart(), s, t, u, v], [a, b, c, d]);
  }

  lemma ReachTwoNodes() returns (s1: State, s2: State)
    ensures Follows(FirstStart(), GetNode(NET, NODE_A, ALL_OK), s1) && Follows(s1, GetNode(NET, NODE_B, ALL_OK), s2)
    ensures InvAndMirror(s2) && TwoNodes(s2)
  {
    s1 := Step(FirstStart(), GetNode(NET, NODE_A, ALL_OK));
    s2 := Step(s1, GetNode(NET, NODE_B, ALL_OK));
    FirstStartInv();
    AddedNode(FirstStart(), NODE_A);
    AddedNode(s1, NODE_B);
    TwoNodesReachable(s1, s2);
  }

  lemma MoveSpoils(s2: State, env: Env) returns (s3: State, s4: State)
    requires InvAndMirror(s2) && TwoNodes(s2) && AllGood(env)
    ensures Follows(s2, AllocateAt(Slot(NET, NODE_A, IDENT), PLAIN, env), s3)
    ensures Follows(s3, AllocateAt(Slot(NET, NODE_B, IDENT), PLAIN, env), s4)
    ensures Spoilt(s3, s4)
  {
    s3 := Step(s2, AllocateAt(Slot(NET, NODE_A, IDENT), PLAIN, env));
    s4 := Step(s3, AllocateAt(Slot(NET, NODE_B, IDENT), PLAIN, env));
    FirstInstanceInv(s2, env);
    FirstInstance(s2, env);
    MoveBreaks(s3, env);
  }

  /**
   * Two nodes, one instance and one move, nothing failing: a run that ends with an address that is free
   * and held at once.
   */
  lemma MoveReachable(env: Env) returns (states: seq<State>, actions: seq<Action>)
    requires AllGood(env)
    ensures IsRun(states, actions) && |actions| == 4
    ensures Spoilt(states[3], states[4])
  {
    var s1, s2 := ReachTwoNodes();
    var s3, s4 := MoveSpoils(s2, env);
    states := [FirstStart(), s1, s2, s3, s4];
    actions := [GetNode(NET, NODE_A, ALL_OK), GetNode(NET, NODE_B, ALL_OK),
                AllocateAt(Slot(NET, NODE_A, IDENT), PLAIN, env), AllocateAt(Slot(NET, NODE_B, IDENT), PLAIN, env)];
    RunOfFour(s1, s2, s3, s4, actions[0], actions[1], actions[2], actions[3]);
  }

  // Releases that fail

  /** The instance still has its address and the allocator has it as well. */
  ghost predicate HeldAndFree(s: State, k: Slot) {
    Held(s.nets, k) && IsFree(s, k.networkID, At(s.nets, k).ip) && !Partitioned(s)
  }

  lemma FailedReleaseSpoils(s: State, k: Slot, order: Order)
    requires MirrorInstances(s.nets, s.db.instances) && Held(s.nets, k) && k.networkID in s.ip.used && IsOrder(order)
    ensures HeldAndFree(Step(s, Action.Release(k.ident, k.nodeID, false, (_: InstanceIdent) => true, order)), k)
  {
    var forgetOk := (_: InstanceIdent) => true;
    var j := ReleaseCases(s, k.ident, k.nodeID, false, forgetOk, order);
    HeldOnce(s.nets, s.db.instances, j.value, k);
    HeldWhileFree(ReleaseSlot(s, k, false, forgetOk).0, k);
  }

  lemma FailedReleaseSteps(s2: State, env: Env, release: Action) returns (s3: State, s4: State)
    requires InvAndMirror(s2) && TwoNodes(s2) && AllGood(env)
    requires release == Action.Release(IDENT, NODE_A, false, (_: InstanceIdent) => true, env.order)
    ensures Follows(s2, AllocateAt(Slot(NET, NODE_A, IDENT), PLAIN, env), s3) && Follows(s3, release, s4)
    ensures HeldAndFree(s4, Slot(NET, NODE_A, IDENT))
  {
    s3 := Step(s2, AllocateAt(Slot(NET, NODE_A, IDENT), PLAIN, env));
    s4 := Step(s3, release);
    FirstInstanceInv(s2, env);
    FirstInstance(s2, env);
    FailedReleaseSpoils(s3, Slot(NET, NODE_A, IDENT), env.order);
  }

  /** A release whose row cannot be removed: a run that ends with an address that is free and held at once. */
  lemma FailedReleaseReachable(env: Env) returns (states: seq<State>, actions: seq<Action>)
    requires AllGood(env)
    ensures IsRun(states, actions) && |actions| == 4
    ensures HeldAndFree(states[4], Slot(NET, NODE_A, IDENT))
  {
    var release := Action.Release(IDENT, NODE_A, false, (_: InstanceIdent) => true, env.order);
    var s1, s2 := ReachTwoNodes();
    var s3, s4 := FailedReleaseSteps(s2, env, release);
    states := [FirstStart(), s1, s2, s3, s4];
    actions := [GetNode(NET, NODE_A, ALL_OK), GetNode(NET, NODE_B, ALL_OK),
                AllocateAt(Slot(NET, NODE_A, IDENT), PLAIN, env), release];
    RunOfFour(s1, s2, s3, s4, actions[0], actions[1], actions[2], actions[3]);
  }

  /** The network is in memory and the allocator does not know it. */
  ghost predicate WithoutSubnet(s: State) {
    NET in s.nets && NET !in s.ip.used && !Partitioned(s)
  }

  lemma NoSlots(s: State, h: HostKey, order: Order)
    requires HasHost(s.nets, h) && s.nets[h.networkID].hosts[h.nodeID].instances == map[] && IsOrder(order)
    ensures Filter(order(s.nets), SlotsOn(h)) == []
  {
    assert Enumerates(order(s.nets), s.nets);
    assert forall k | k in order(s.nets) :: Held(s.nets, k);
    FilterNone(order(s.nets), SlotsOn(h));
  }

  lemma SubnetLost(s: State, h: HostKey)
    requires TablesOk(s.nets, s.db) && HasHost(s.nets, h) && h in s.db.hosts && LastHost(s, h)
    requires s.nets[h.networkID].hosts[h.nodeID].instances == map[]
    ensures var s' := RemoveHost(s, h, 1, 0).0; h.networkID in s'.nets && h.networkID !in s'.ip.used
  {
    TablesAfterDropHost(s.nets, s.db, h);
    RemoveHostCases(s, h, 1, 0);
  }

  lemma OnlyNode(s: State, order: Order)
    requires TablesOk(s.nets, s.db) && HostKey(NET, NODE_A) in s.db.hosts && IsOrder(order)
    requires s.nets.Keys == {NET} && s.nets[NET].hosts.Keys == {NODE_A}
    requires s.nets[NET].hosts[NODE_A].instances == map[]
    ensures WithoutSubnet(Step(s, ReleaseNodeAt(HostKey(NET, NODE_A), 1, (_: InstanceIdent) => true, order)))
  {
    var h, forgetOk := HostKey(NET, NODE_A), (_: InstanceIdent) => true;
    var slots := ReleaseNodeCases(s, h, 1, forgetOk, order);
    NoSlots(s, h, order);
    assert ReleaseRows(s, slots, 1, forgetOk) == (s, true);
    assert LastHost(s, h);
    SubnetLost(s, h);
  }

  lemma RunOfTwo(s: State, t: State, a: Action, b: Action)
    requires Follows(FirstStart(), a, s) && Follows(s, b, t)
    ensures IsRun([FirstStart(), s, t], [a, b])
  {
    FollowedRun([FirstStart(), s, t], [a, b]);
  }

  /** The release of a network's last node whose network row cannot be removed: the network keeps no subnet. */
  lemma LostSubnetReachable(order: Order) returns (states: seq<State>, actions: seq<Action>)
    requires IsOrder(order)
    ensures IsRun(states, actions) && |actions| == 2
    ensures WithoutSubnet(states[2])
  {
    var release := ReleaseNodeAt(HostKey(NET, NODE_A), 1, (_: InstanceIdent) => true, order);
    var s1 := Step(FirstStart(), GetNode(NET, NODE_A, ALL_OK));
    FirstStartInv();
    AddedNode(FirstStart(), NODE_A);
    FirstNode();
    assert HasHost(s1.nets, HostKey(NET, NODE_A));
    OnlyNode(s1, order);
    states := [FirstStart(), s1, Step(s1, release)];
    actions := [GetNode(NET, NODE_A, ALL_OK), release];
    RunOfTwo(states[1], states[2], actions[0], actions[1]);
  }
}
