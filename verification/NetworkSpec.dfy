/**
 * The locked sections of the network manager as functions on its whole state: memory, allocator
 * and tables (src/cm/networkmanager/networkmanager.cpp).
 */
module NetworkSpec {
  import opened Cidr
  import opened Wrappers
  import opened NetPool
  import opened Seqs
  import opened IpSubnets
  import opened NetworkTypes
  import opened NetworkDatabase
  import opened FirewallRules
  import opened PendingConnections

  /** dropped records, per network, the node addresses that were never given back to the allocator. */
  datatype State = State(
    nets: Nets,
    names: HostNames,
    pending: seq<PendingConnection>,
    ip: IpState,
    db: Tables,
    dropped: map<NetworkID, set<Addr>>)

  function DroppedIn(dropped: map<NetworkID, set<Addr>>, networkID: NetworkID): set<Addr> {
    if networkID in dropped then dropped[networkID] else {}
  }

  datatype NetworkParams = NetworkParams(networkID: NetworkID, subnet: Subnet, ip: Addr, vlanID: nat)

  // Node networks

  /** What the surroundings answer: the random VLAN ID, the kernel's routes, the storage. */
  datatype NodeInput = NodeInput(vlanID: Option<nat>, routes: Option<seq<Route>>, addNetworkOk: bool, addHostOk: bool)

  function FirstHost(network: Network, host: Host): NetworkState {
    NetworkState(network, map[host.nodeID := HostInstances(host, map[])])
  }

  ghost function NewNetwork(s: State, networkID: NetworkID, nodeID: NodeID, e: NodeInput)
    : (State, Option<NetworkParams>)
  {
    if e.vlanID.None? then (s, None)
    else
      match RequestSubnet(s.ip, networkID, e.routes)
      case None => (s, None)
      case Some((subnet, ips)) =>
        match TakeIP(ips, networkID)
        case None => (s.(ip := ips), None)
        case Some((ip, ips')) =>
          var network := Network(networkID, subnet, e.vlanID.value);
          var s1 := s.(ip := ips', nets := s.nets[networkID := FirstHost(network, Host(nodeID, ip))]);
          var (db, ok) := InsertNetwork(s.db, network, e.addNetworkOk);
          if !ok then (s1.(db := db), None)
          else
            var (db', ok') := InsertHost(db, networkID, Host(nodeID, ip), e.addHostOk);
            (s1.(db := db'), if ok' then Some(NetworkParams(networkID, subnet, ip, e.vlanID.value)) else None)
  }

  ghost function GetNodeNetworkParams(s: State, networkID: NetworkID, nodeID: NodeID, e: NodeInput)
    : (State, Option<NetworkParams>)
  {
    if networkID !in s.nets then NewNetwork(s, networkID, nodeID, e)
    else
      var network := s.nets[networkID].network;
      if HasHost(s.nets, HostKey(networkID, nodeID)) then
        var ip := HostAt(s.nets, HostKey(networkID, nodeID)).ip;
        (s, Some(NetworkParams(networkID, network.subnet, ip, network.vlanID)))
      else
        match TakeIP(s.ip, networkID)
        case None => (s, None)
        case Some((ip, ips)) =>
          var (db, ok) := InsertHost(s.db, networkID, Host(nodeID, ip), e.addHostOk);
          (s.(ip := ips, nets := PutHost(s.nets, networkID, Host(nodeID, ip)), db := db),
           if ok then Some(NetworkParams(networkID, network.subnet, ip, network.vlanID)) else None)
  }

  // Host names

  predicate NameTaken(names: HostNames, name: string) {
    exists a | a in names :: name in names[a]
  }

  function NamesAt(names: HostNames, ip: Addr): seq<string> {
    if ip in names then names[ip] else []
  }

  /** Adds host names one by one and stops at the first that exists. */
  function AddNames(names: HostNames, ip: Addr, wanted: seq<string>): (HostNames, bool)
    decreases wanted
  {
    if wanted == [] then (names, true)
    else if NameTaken(names, wanted[0]) then (names, false)
    else AddNames(names[ip := NamesAt(names, ip) + [wanted[0]]], ip, wanted[1..])
  }

  // Instance networks

  /** The service data; None stands for text that does not parse. */
  datatype Request = Request(
    hostNames: seq<string>, allowed: seq<Option<Connection>>, exposedPorts: Option<seq<ExposedPort>>)

  datatype Env = Env(
    dnsIP: string, dnsOk: bool, addInstanceOk: bool, removeInstanceOk: bool, answers: Answers, order: Order)

  datatype Allocation = Allocation(subnet: Subnet, ip: Addr, dnsServers: seq<string>, rules: seq<FirewallRule>)

  /** Refreshed: the instance was there already. Allocated: it is new, and waiting connections are looked at next. */
  datatype Outcome = Failure | Refreshed(result: Allocation) | Allocated(result: Allocation)

  function Forget(ps: seq<PendingConnection>, ident: InstanceIdent): seq<PendingConnection> {
    Filter(ps, OtherRequester(ident))
  }

  /** A deletion that fails is logged: memory has forgotten the records, the table has not. */
  ghost function ForgetRequester(s: State, ident: InstanceIdent, forgetOk: InstanceIdent -> bool): State {
    var rows := if forgetOk(ident) then Forget(s.db.pending, ident) else s.db.pending;
    s.(pending := Forget(s.pending, ident), db := s.db.(pending := rows))
  }

  /** An insert that fails is logged: the record is in memory only. */
  ghost function StorePending(s: State, k: Slot, ip: Addr, subnet: Subnet, unresolved: seq<Connection>,
                              addOk: nat -> bool): State {
    var records := Records(k, ip, subnet, unresolved);
    s.(pending := s.pending + records, db := s.db.(pending := s.db.pending + Written(records, addOk)))
  }

  /** The branch for an instance that the node holds already. */
  ghost function Refresh(s: State, k: Slot, req: Request, env: Env): (State, Outcome)
    requires Held(s.nets, k) && IsOrder(env.order)
  {
    var (x, subnet) := (At(s.nets, k), s.nets[k.networkID].network.subnet);
    match Prepare(s.nets, env.order(s.nets), subnet, x.ip, req.allowed, [], [])
    case None => (s, Failure)
    case Some((rules, unresolved)) =>
      var s0 := ForgetRequester(s, k.ident, env.answers.forgetOk);
      var s1 := StorePending(s0, k, x.ip, subnet, unresolved, env.answers.addOk);
      var (names, ok) := AddNames(s.names - {x.ip}, x.ip, req.hostNames);
      if ok && env.dnsOk then
        (s1.(names := names), Refreshed(Allocation(subnet, x.ip, x.dnsServers, rules)))
      else (s1.(names := names[x.ip := NamesAt(s.names, x.ip)]), Failure)
  }

  /** Which slot a search is for: Elsewhere is the same instance on another node of the network. */
  datatype Wanted = Elsewhere | OnNode

  predicate Matches(j: Slot, k: Slot, wanted: Wanted) {
    match wanted
    case Elsewhere => j.networkID == k.networkID && j.nodeID != k.nodeID && j.ident == k.ident
    case OnNode => j.nodeID == k.nodeID && j.ident == k.ident
  }

  /** The first matching slot in walking order. */
  function FindSlot(order: seq<Slot>, k: Slot, wanted: Wanted): (r: Option<Slot>)
    ensures r.Some? ==> r.value in order && Matches(r.value, k, wanted)
    ensures r.None? ==> forall j | j in order :: !Matches(j, k, wanted)
  {
    if order == [] then None
    else if Matches(order[0], k, wanted) then Some(order[0])
    else FindSlot(order[1..], k, wanted)
  }

  datatype Registered = Registered(db: Tables, rules: seq<FirewallRule>, unresolved: seq<Connection>)

  /** Firewall rules, host names, DNS and the row of a new instance; names may be added even when it fails. */
  ghost function Register(s: State, x: Instance, subnet: Subnet, req: Request, env: Env)
    : (r: (HostNames, Option<Registered>))
    requires IsOrder(env.order)
    ensures r.0 == s.names || r.0 == AddNames(s.names, x.ip, req.hostNames).0
  {
    match Prepare(s.nets, env.order(s.nets), subnet, x.ip, req.allowed, [], [])
    case None => (s.names, None)
    case Some((rules, unresolved)) =>
      var (names, namesOk) := AddNames(s.names, x.ip, req.hostNames);
      if !namesOk || !env.dnsOk then (names, None)
      else
        var (db, ok) := InsertInstance(s.db, x, env.addInstanceOk);
        (names, if ok then Some(Registered(db, rules, unresolved)) else None)
  }

  /** The deferred rollbacks of a failed installation. */
  ghost function Uninstall(s: State, k: Slot, ip: Addr): State
    requires HasHost(s.nets, HostKey(k.networkID, k.nodeID))
  {
    s.(nets := DropInstance(s.nets, k), names := s.names - {ip}, ip := GiveIP(s.ip, k.networkID, ip))
  }

  /** From the point where the instance has an address: every failure takes all of it back. */
  ghost function Install(s: State, k: Slot, ip: Addr, dnsServers: seq<string>, req: Request, env: Env): (State, Outcome)
    requires HasHost(s.nets, HostKey(k.networkID, k.nodeID)) && IsOrder(env.order)
  {
    if req.exposedPorts.None? then (s.(ip := GiveIP(s.ip, k.networkID, ip)), Failure)
    else
      var x := Instance(k.networkID, k.nodeID, k.ident, ip, req.exposedPorts.value, dnsServers);
      var subnet := s.nets[k.networkID].network.subnet;
      var s1 := s.(nets := PutInstance(s.nets, k, x));
      var (names, done) := Register(s1, x, subnet, req, env);
      if done.None? then (Uninstall(s1.(names := names), k, ip), Failure)
      else
        (StorePending(s1.(names := names, db := done.value.db), k, ip, subnet, done.value.unresolved,
                      env.answers.addOk),
         Allocated(Allocation(subnet, ip, dnsServers, done.value.rules)))
  }

  /** The instance moves from slot j to slot k; its address goes back to the allocator and is kept as well. */
  ghost function Migrate(s: State, k: Slot, j: Slot, req: Request, env: Env): (State, Outcome)
    requires HasHost(s.nets, HostKey(k.networkID, k.nodeID)) && Held(s.nets, j) && IsOrder(env.order)
    requires Matches(j, k, Elsewhere)
  {
    var x := At(s.nets, j);
    var s1 := s.(ip := GiveIP(s.ip, k.networkID, x.ip), names := s.names - {x.ip});
    var (db, ok) := DeleteInstance(s.db, k.ident, env.removeInstanceOk);
    if !ok then (s1.(db := db), Failure)
    else
      var s2 := ForgetRequester(s1.(db := db, nets := DropInstance(s1.nets, j)), k.ident, env.answers.forgetOk);
      Install(s2, k, x.ip, x.dnsServers, req, env)
  }

  ghost function Allocate(s: State, k: Slot, req: Request, env: Env): (State, Outcome)
    requires IsOrder(env.order)
  {
    if !HasHost(s.nets, HostKey(k.networkID, k.nodeID)) then (s, Failure)
    else if Held(s.nets, k) then Refresh(s, k, req, env)
    else
      match FindSlot(env.order(s.nets), k, Elsewhere)
      case Some(j) => Migrate(s, k, j, req, env)
      case None =>
        match TakeIP(s.ip, k.networkID)
        case None => (s, Failure)
        case Some((ip, ips)) => Install(s.(ip := ips), k, ip, [env.dnsIP], req, env)
  }

  ghost function ReleaseRow(s: State, k: Slot, removeOk: bool, forgetOk: InstanceIdent -> bool): (State, bool)
    requires Held(s.nets, k)
  {
    var ip := At(s.nets, k).ip;
    var (db, ok) := DeleteInstance(s.db, k.ident, removeOk);
    var s1 := s.(ip := GiveIP(s.ip, k.networkID, ip), names := s.names - {ip}, db := db);
    (if ok then ForgetRequester(s1, k.ident, forgetOk) else s1, ok)
  }

  /** The address is given back before the row is removed; a storage failure stops in between. */
  ghost function ReleaseSlot(s: State, k: Slot, removeOk: bool, forgetOk: InstanceIdent -> bool): (State, bool)
    requires Held(s.nets, k)
  {
    var (s1, ok) := ReleaseRow(s, k, removeOk, forgetOk);
    (if ok then s1.(nets := DropInstance(s1.nets, k)) else s1, ok)
  }

  ghost function ReleaseInstance(s: State, ident: InstanceIdent, nodeID: NodeID, removeOk: bool,
                                 forgetOk: InstanceIdent -> bool, order: Order): (State, bool)
    requires IsOrder(order)
  {
    match FindSlot(order(s.nets), Slot("", nodeID, ident), OnNode)
    case None => (s, true)
    case Some(k) => ReleaseSlot(s, k, removeOk, forgetOk)
  }

  // Node release

  predicate OnHost(h: HostKey, k: Slot) {
    k.networkID == h.networkID && k.nodeID == h.nodeID
  }

  function SlotsOn(h: HostKey): Slot -> bool {
    (k: Slot) => OnHost(h, k)
  }

  /** The loop over the instances of a node; storage call number failAt fails. */
  ghost function ReleaseRows(s: State, slots: seq<Slot>, failAt: nat, forgetOk: InstanceIdent -> bool)
    : (r: (State, bool))
    requires forall k | k in slots :: Held(s.nets, k)
    ensures r.0.nets == s.nets
    decreases slots
  {
    if slots == [] then (s, true)
    else
      var (s1, ok) := ReleaseRow(s, slots[0], failAt != 0, forgetOk);
      if !ok then (s1, false)
      else ReleaseRows(s1, slots[1..], failAt - 1, forgetOk)
  }

  lemma FilteredHeld(order: seq<Slot>, h: HostKey, nets: Nets)
    requires forall k | k in order :: Held(nets, k)
    ensures forall k :: k in Filter(order, SlotsOn(h)) <==> k in order && OnHost(h, k)
  {
    forall k
      ensures k in Filter(order, SlotsOn(h)) <==> k in order && OnHost(h, k)
    {
      FilterMember(order, SlotsOn(h), k);
    }
  }

  ghost function RemoveNetwork(s: State, networkID: NetworkID, storageOk: bool): (State, bool) {
    var (db, ok) := DeleteNetwork(s.db, networkID, storageOk);
    var s1 := s.(ip := ReleasePool(s.ip, networkID), db := db);
    (if ok then s1.(nets := s1.nets - {networkID}, dropped := s1.dropped - {networkID}) else s1, ok)
  }

  /** The node's row, the node in memory and, after its last node, the network. */
  ghost function RemoveHost(s: State, h: HostKey, failAt: nat, calls: nat): (State, bool)
    requires HasHost(s.nets, h)
  {
    var (db, ok) := DeleteHost(s.db, h, failAt != calls);
    if !ok then (s.(db := db), false)
    else
      var nets := DropHost(s.nets, h);
      var s1 := s.(db := db, nets := nets,
                   dropped := s.dropped[h.networkID := DroppedIn(s.dropped, h.networkID) + {HostAt(s.nets, h).ip}]);
      if nets[h.networkID].hosts != map[] then (s1, true) else RemoveNetwork(s1, h.networkID, failAt != calls + 1)
  }

  ghost function ReleaseNode(s: State, h: HostKey, failAt: nat, forgetOk: InstanceIdent -> bool, order: Order)
    : (State, bool)
    requires IsOrder(order)
  {
    if !HasHost(s.nets, h) then (s, false)
    else
      var slots := Filter(order(s.nets), SlotsOn(h));
      FilteredHeld(order(s.nets), h, s.nets);
      var (s1, ok) := ReleaseRows(s, slots, failAt, forgetOk);
      if !ok then (s1, false) else RemoveHost(s1, h, failAt, |slots|)
  }

  // Reconciliation with a node

  ghost function CleanedLists(s: State, nodeID: NodeID, report: seq<InstanceReport>, answers: Answers, order: Order)
    : Lists
    requires IsOrder(order)
  {
    var l := Lists(s.pending, s.db.pending);
    if answers.readOk then Clean(s.nets, order(s.nets), nodeID, report, s.db.pending, 0, answers.removeOk, l) else l
  }

  /** A read that fails ends the cleanup, or the reload, before it has begun. */
  ghost function CleanAndReload(s: State, nodeID: NodeID, report: seq<InstanceReport>, answers: Answers, order: Order)
    : State
    requires IsOrder(order)
  {
    var l := CleanedLists(s, nodeID, report, answers, order);
    s.(pending := if answers.reloadOk then Reload(nodeID, l.rows, l.memory) else l.memory,
       db := s.db.(pending := l.rows))
  }

  ghost function Resolve(s: State, itemID: string, order: Order): (State, Updates)
    requires IsOrder(order)
  {
    (s.(pending := Filter(s.pending, Unresolvable(s.nets, order(s.nets), itemID))),
     Collect(s.nets, order(s.nets), itemID, s.pending, map[]))
  }

  predicate Stale(nodeID: NodeID, report: seq<InstanceReport>, k: Slot) {
    k.nodeID == nodeID && forall r | r in report :: r.ident != k.ident
  }

  function StaleSlots(nodeID: NodeID, report: seq<InstanceReport>): Slot -> bool {
    (k: Slot) => Stale(nodeID, report, k)
  }

  /** Releases one instance after the other; what fails is logged and left. */
  ghost function ReleaseAll(s: State, slots: seq<Slot>, nodeID: NodeID, removeOk: InstanceIdent -> bool,
                            forgetOk: InstanceIdent -> bool, order: Order): State
    requires IsOrder(order)
    decreases slots
  {
    if slots == [] then s
    else
      var ident := slots[0].ident;
      var s1 := ReleaseInstance(s, ident, nodeID, removeOk(ident), forgetOk, order).0;
      ReleaseAll(s1, slots[1..], nodeID, removeOk, forgetOk, order)
  }

  ghost function ResolveAll(s: State, slots: seq<Slot>, order: Order, pushed: seq<Updates>): (State, seq<Updates>)
    requires IsOrder(order)
    decreases slots
  {
    if slots == [] then (s, pushed)
    else
      var (s1, updates) := Resolve(s, slots[0].ident.itemID, order);
      ResolveAll(s1, slots[1..], order, pushed + [updates])
  }

  /** SyncNetworkState when no other operation comes in between: the new state and all pushes. */
  ghost function Sync(s: State, nodeID: NodeID, report: seq<InstanceReport>, removeOk: InstanceIdent -> bool,
                      answers: Answers, order: Order): (State, seq<Updates>)
    requires IsOrder(order)
  {
    var stale := Filter(order(s.nets), StaleSlots(nodeID, report));
    var s1 := ReleaseAll(s, stale, nodeID, removeOk, answers.forgetOk, order);
    var s2 := CleanAndReload(s1, nodeID, report, answers, order);
    ResolveAll(s2, order(s2.nets), order, [])
  }

  // Start from the tables

  function LoadHost(db: Tables, h: HostKey): HostInstances
    requires h in db.hosts
  {
    HostInstances(db.hosts[h], SelectInstances(db, h))
  }

  function LoadNetwork(db: Tables, networkID: NetworkID): NetworkState
    requires networkID in db.networks
  {
    NetworkState(db.networks[networkID],
                 map d | d in SelectHosts(db, networkID) :: LoadHost(db, HostKey(networkID, d)))
  }

  function Load(db: Tables): Nets {
    map n | n in db.networks :: LoadNetwork(db, n)
  }

  /** The addresses in use in a network. */
  ghost function AddressesIn(ns: NetworkState): set<Addr> {
    (set d | d in ns.hosts :: ns.hosts[d].info.ip)
    + (set d, i | d in ns.hosts && i in ns.hosts[d].instances :: ns.hosts[d].instances[i].ip)
  }

  /** The loop over the networks; the list of addresses is never cleared in between. */
  ghost function RecoverAll(ip: IpState, nets: Nets, order: seq<NetworkID>, seen: set<Addr>): IpState
    requires forall n | n in order :: n in nets
    decreases order
  {
    if order == [] then ip
    else
      var ns := nets[order[0]];
      var seen' := seen + AddressesIn(ns);
      RecoverAll(Recover(ip, order[0], ns.network.subnet, seen'), nets, order[1..], seen')
  }

  ghost function Init(db: Tables, order: seq<NetworkID>): State
    requires forall n :: n in order <==> n in db.networks
  {
    var nets := Load(db);
    State(nets, map[], db.pending, RecoverAll(IpState(PrivatePool(), map[]), nets, order, {}), db, map[])
  }
}
