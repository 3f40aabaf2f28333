/**
 * The network manager over whole runs: every interleaving of the locked sections and of restarts.
 */
module NetworkRuns {
  import opened NetPool
  import opened Seqs
  import opened IpSubnets
  import opened NetworkTypes
  import opened FirewallRules
  import opened PendingConnections
  import opened NetworkSpec
  import opened NetworkInvariant
  import opened NetworkSteps
  import opened NetworkNames
  import opened NetworkTables
  import opened NetworkRecords
  import opened NetworkAddresses
  import opened NetworkRestart
  import opened NetworkPlacement

  /** The locked sections, each with what its surroundings answer. A SyncNetworkState is a sequence of them. */
  datatype Action =
    | GetNode(networkID: NetworkID, nodeID: NodeID, input: NodeInput)
    | AllocateAt(slot: Slot, req: Request, env: Env)
    | Release(ident: InstanceIdent, nodeID: NodeID, removeOk: bool, forgetOk: InstanceIdent -> bool, order: Order)
    | ReleaseNodeAt(host: HostKey, failAt: nat, forgetOk: InstanceIdent -> bool, order: Order)
    | Reconcile(nodeID: NodeID, report: seq<InstanceReport>, answers: Answers, order: Order)
    | ResolveFor(itemID: string, order: Order)
    | Restart(networks: seq<NetworkID>)

  ghost predicate Possible(s: State, a: Action) {
    match a
    case GetNode(_, _, _) => true
    case AllocateAt(_, _, env) => IsOrder(env.order)
    case Release(_, _, _, _, order) => IsOrder(order)
    case ReleaseNodeAt(_, _, _, order) => IsOrder(order)
    case Reconcile(_, _, _, order) => IsOrder(order)
    case ResolveFor(_, order) => IsOrder(order)
    case Restart(networks) => ListsNetworks(networks, s.db)
  }

  ghost function Step(s: State, a: Action): State
    requires Possible(s, a)
  {
    match a
    case GetNode(n, d, e) => GetNodeNetworkParams(s, n, d, e).0
    case AllocateAt(k, req, env) => Allocate(s, k, req, env).0
    case Release(i, d, removeOk, forgetOk, order) => ReleaseInstance(s, i, d, removeOk, forgetOk, order).0
    case ReleaseNodeAt(h, failAt, forgetOk, order) => ReleaseNode(s, h, failAt, forgetOk, order).0
    case Reconcile(d, report, answers, order) => CleanAndReload(s, d, report, answers, order)
    case ResolveFor(item, order) => Resolve(s, item, order).0
    case Restart(networks) => Init(s.db, networks)
  }

  // Which steps keep what

  /** The step neither moves an instance to another node nor releases with a storage failure. */
  ghost predicate Clean(s: State, a: Action) {
    match a
    case AllocateAt(k, _, _) => !Migrates(s, k)
    case Release(i, d, removeOk, _, _) => removeOk || !HeldOnNode(s, i, d)
    case ReleaseNodeAt(h, failAt, _, order) => !ReleaseFails(s, h, failAt, order)
    case _ => true
  }

  /** The step does not stop half-way through the rows of a node's instances. */
  ghost predicate KeepsTables(s: State, a: Action) {
    a.ReleaseNodeAt? ==> !LosesRows(s, a.host, a.failAt, a.order)
  }

  /** Nor does it leave a node or a network in memory whose row could not be written. */
  ghost predicate InStep(s: State, a: Action) {
    && KeepsTables(s, a)
    && (a.GetNode? ==> !(WritesRow(s, a.networkID, a.nodeID, a.input) && StorageFails(s, a.networkID, a.input)))
  }

  /** The step takes an instance from its slot and cannot delete the records that the table has of it. */
  ghost predicate Strands(s: State, a: Action) {
    match a
    case AllocateAt(k, _, env) =>
      && Migrates(s, k) && env.removeInstanceOk
      && !env.answers.forgetOk(k.ident) && HasRecord(s.db.pending, k.ident)
    case Release(i, d, removeOk, forgetOk, _) =>
      HeldOnNode(s, i, d) && removeOk && !forgetOk(i) && HasRecord(s.db.pending, i)
    case ReleaseNodeAt(h, failAt, forgetOk, order) =>
      ReachesHost(s, h, failAt, order) && LeavesRecord(s, Filter(order(s.nets), SlotsOn(h)), forgetOk)
    case _ => false
  }

  ghost predicate KeepsTrack(s: State, a: Action) {
    KeepsTables(s, a) && !Strands(s, a)
  }

  /** The step's inserts into the pending table succeed. */
  ghost predicate Inserts(a: Action) {
    a.AllocateAt? ==> InsertsOk(a.env)
  }

  /** The step gives no network's subnet back while its row stays. */
  ghost predicate KeepsSubnets(s: State, a: Action) {
    KeepsTables(s, a) && (a.ReleaseNodeAt? ==> !StopsAtNetwork(s, a.host, a.failAt, a.order))
  }

  /** Names, whatever fails. */
  lemma StepNames(s: State, a: Action)
    requires NamesOk(s.nets, s.names) && Possible(s, a)
    ensures NamesOk(Step(s, a).nets, Step(s, a).names)
  {
    match a
    case GetNode(n, d, e) => NameGetNode(s, n, d, e);
    case AllocateAt(k, req, env) => NameAllocate(s, k, req, env);
    case Release(i, d, removeOk, forgetOk, order) => NameRelease(s, i, d, removeOk, forgetOk, order);
    case ReleaseNodeAt(h, failAt, forgetOk, order) => NameReleaseNode(s, h, failAt, forgetOk, order);
    case Reconcile(_, _, _, _) =>
    case ResolveFor(_, _) =>
    case Restart(_) =>
  }

  lemma ReconcileKeepsTables(s: State, nodeID: NodeID, report: seq<InstanceReport>, answers: Answers, order: Order)
    requires TablesOk(s.nets, s.db) && IsOrder(order)
    ensures var s' := CleanAndReload(s, nodeID, report, answers, order); TablesOk(s'.nets, s'.db) && AsComplete(s, s')
  {
    TablesIgnoreRecords(s, CleanAndReload(s, nodeID, report, answers, order));
  }

  /** The instance table follows memory after exactly the steps that do not lose rows. */
  lemma StepTables(s: State, a: Action)
    requires TablesOk(s.nets, s.db) && Possible(s, a)
    ensures var s' := Step(s, a);
            if KeepsTables(s, a) then TablesOk(s'.nets, s'.db) else !MirrorInstances(s'.nets, s'.db.instances)
  {
    match a
    case GetNode(n, d, e) => TablesGetNode(s, n, d, e);
    case AllocateAt(k, req, env) => TablesAllocate(s, k, req, env);
    case Release(i, d, removeOk, forgetOk, order) => TablesRelease(s, i, d, removeOk, forgetOk, order);
    case ReleaseNodeAt(h, failAt, forgetOk, order) => TablesReleaseNode(s, h, failAt, forgetOk, order, false);
    case Reconcile(d, report, answers, order) => ReconcileKeepsTables(s, d, report, answers, order);
    case ResolveFor(item, order) => RecordsResolve(s, item, order);
    case Restart(networks) => RestartTables(s, networks);
  }

  lemma StepComplete(s: State, a: Action)
    requires TablesAll(s, true) && Possible(s, a) && KeepsTables(s, a)
    ensures RowsComplete(Step(s, a).nets, Step(s, a).db) <==> InStep(s, a)
  {
    match a
    case GetNode(n, d, e) => TablesGetNode(s, n, d, e);
    case AllocateAt(k, req, env) => TablesAllocate(s, k, req, env);
    case Release(i, d, removeOk, forgetOk, order) => TablesRelease(s, i, d, removeOk, forgetOk, order);
    case ReleaseNodeAt(h, failAt, forgetOk, order) => TablesReleaseNode(s, h, failAt, forgetOk, order, true);
    case Reconcile(d, report, answers, order) => ReconcileKeepsTables(s, d, report, answers, order);
    case ResolveFor(item, order) => RecordsResolve(s, item, order);
    case Restart(networks) => RestartTables(s, networks);
  }

  /** The tables say what memory says after exactly the steps that leave them in step. */
  lemma StepMirrored(s: State, a: Action)
    requires Mirror(s.nets, s.db) && Possible(s, a)
    ensures Mirror(Step(s, a).nets, Step(s, a).db) <==> InStep(s, a)
  {
    StepTables(s, a);
    if KeepsTables(s, a) {
      StepComplete(s, a);
    }
  }

  /** Records stay live after exactly the steps that strand none, whatever else fails. */
  lemma StepLive(s: State, a: Action)
    requires Alive(s) && Possible(s, a)
    ensures var s' := Step(s, a); RecordsLive(s'.nets, s'.pending, s'.db.pending) <==> !Strands(s, a)
  {
    match a
    case GetNode(n, d, e) => RecordsGetNode(s, n, d, e);
    case AllocateAt(k, req, env) => RecordsAllocate(s, k, req, env);
    case Release(i, d, removeOk, forgetOk, order) => RecordsRelease(s, i, d, removeOk, forgetOk, order);
    case ReleaseNodeAt(h, failAt, forgetOk, order) => RecordsReleaseNode(s, h, failAt, forgetOk, order);
    case Reconcile(d, report, answers, order) => RecordsReconcile(s, d, report, answers, order);
    case ResolveFor(item, order) => RecordsResolve(s, item, order);
    case Restart(networks) => RestartRebuilds(s, networks);
  }

  /** Memory has no more copies of a record than the table, if all inserts succeed. */
  lemma StepWithin(s: State, a: Action)
    requires Tracked(s) && Possible(s, a) && Inserts(a)
    ensures Within(Step(s, a).pending, Step(s, a).db.pending)
  {
    match a
    case GetNode(n, d, e) => RecordsGetNode(s, n, d, e);
    case AllocateAt(k, req, env) => WithinAllocate(s, k, req, env);
    case Release(i, d, removeOk, forgetOk, order) => WithinRelease(s, i, d, removeOk, forgetOk, order);
    case ReleaseNodeAt(h, failAt, forgetOk, order) => WithinReleaseNode(s, h, failAt, forgetOk, order);
    case Reconcile(d, report, answers, order) => WithinReconcile(s, d, report, answers, order);
    case ResolveFor(item, order) => WithinResolve(s, item, order);
    case Restart(networks) => RestartRebuilds(s, networks);
  }

  /** Where inserts succeed, records and the instance table follow memory after exactly the steps that keep track. */
  lemma StepTracked(s: State, a: Action)
    requires Tracked(s) && Possible(s, a) && Inserts(a)
    ensures Tracked(Step(s, a)) <==> KeepsTrack(s, a)
  {
    StepTables(s, a);
    StepLive(s, a);
    StepWithin(s, a);
  }

  /** Only a node's release can lose rows, and no clean one does. */
  lemma CleanKeepsTables(s: State, a: Action)
    requires TablesOk(s.nets, s.db) && Possible(s, a) && Clean(s, a)
    ensures KeepsTables(s, a)
  {
    if a.ReleaseNodeAt? && LosesRows(s, a.host, a.failAt, a.order) {
      LosingRowsFails(s, a.host, a.failAt, a.order);
    }
  }

  /** The addresses stay partitioned after exactly the clean steps. */
  lemma StepPartitioned(s: State, a: Action)
    requires Apportioned(s) && TablesOk(s.nets, s.db) && Possible(s, a)
    ensures if Clean(s, a) then Apportioned(Step(s, a)) else !Partitioned(Step(s, a))
  {
    match a
    case GetNode(n, d, e) => GetNodeApportioned(s, n, d, e);
    case AllocateAt(k, req, env) => AllocateApportioned(s, k, req, env);
    case Release(i, d, removeOk, forgetOk, order) => ReleaseApportioned(s, i, d, removeOk, forgetOk, order);
    case ReleaseNodeAt(h, failAt, forgetOk, order) => ReleaseNodeApportioned(s, h, failAt, forgetOk, order);
    case Reconcile(_, _, _, _) => ApportionedAlike(s, Step(s, a));
    case ResolveFor(_, _) => ApportionedAlike(s, Step(s, a));
    case Restart(networks) => RestartRefines(s, networks);
  }

  /** Every address stays in its network's subnet, after moves and failures too. */
  lemma StepPlaced(s: State, a: Action)
    requires Placed(s) && TablesOk(s.nets, s.db) && Possible(s, a) && KeepsTables(s, a)
    ensures Placed(Step(s, a)) <==> KeepsSubnets(s, a)
  {
    match a
    case GetNode(n, d, e) => GetNodePlaced(s, n, d, e);
    case AllocateAt(k, req, env) => AllocatePlaced(s, k, req, env);
    case Release(i, d, removeOk, forgetOk, order) => ReleasePlaced(s, i, d, removeOk, forgetOk, order);
    case ReleaseNodeAt(h, failAt, forgetOk, order) => ReleaseNodePlaced(s, h, failAt, forgetOk, order);
    case Reconcile(_, _, _, _) => PlacedAlike(s, Step(s, a));
    case ResolveFor(_, _) => PlacedAlike(s, Step(s, a));
    case Restart(networks) => RestartRepairs(s, networks);
  }

  /** The whole invariant survives exactly the clean steps that strand no record, where inserts succeed. */
  lemma StepIff(s: State, a: Action)
    requires Inv(s) && Possible(s, a) && Inserts(a)
    ensures Inv(Step(s, a)) <==> Clean(s, a) && !Strands(s, a)
  {
    StepPartitioned(s, a);
    StepNames(s, a);
    StepTracked(s, a);
    if Clean(s, a) {
      CleanKeepsTables(s, a);
    }
  }

  // Runs

  /** The states of a run: each follows from the one before. */
  ghost predicate IsRun(states: seq<State>, actions: seq<Action>) {
    && |states| == |actions| + 1
    && states[0] == FirstStart()
    && forall i | 0 <= i < |actions| :: Possible(states[i], actions[i]) && states[i + 1] == Step(states[i], actions[i])
  }

  /** No host name ever stands twice, and each belongs to the address of a held instance, in any run at all. */
  lemma {:induction false} RunNames(states: seq<State>, actions: seq<Action>, i: nat)
    requires IsRun(states, actions) && i < |states|
    ensures NamesOk(states[i].nets, states[i].names)
  {
    if i == 0 {
      FirstStartInv();
    } else {
      RunNames(states, actions, i - 1);
      StepNames(states[i - 1], actions[i - 1]);
    }
  }

  /** From states with inv, exactly the good steps lead to states with inv, and the others spoil ok. */
  ghost predicate Exact(inv: State -> bool, ok: State -> bool, good: (State, Action) -> bool) {
    && inv(FirstStart())
    && (forall s | inv(s) :: ok(s))
    && forall s, a | inv(s) && Possible(s, a) :: if good(s, a) then inv(Step(s, a)) else !ok(Step(s, a))
  }

  /** As long as the steps are good, or the states ok, the steps are good and the states have inv. */
  lemma {:induction false} ExactPrefix(inv: State -> bool, ok: State -> bool, good: (State, Action) -> bool,
                                       states: seq<State>, actions: seq<Action>, i: nat)
    requires Exact(inv, ok, good) && IsRun(states, actions) && i < |states|
    requires (forall j | 0 <= j < i :: good(states[j], actions[j])) || (forall j | 0 <= j <= i :: ok(states[j]))
    ensures inv(states[i]) && forall j | 0 <= j < i :: good(states[j], actions[j])
  {
    if i > 0 {
      ExactPrefix(inv, ok, good, states, actions, i - 1);
      assert Possible(states[i - 1], actions[i - 1]) && states[i] == Step(states[i - 1], actions[i - 1]);
    }
  }

  lemma ExactRun(inv: State -> bool, ok: State -> bool, good: (State, Action) -> bool,
                 states: seq<State>, actions: seq<Action>)
    requires Exact(inv, ok, good) && IsRun(states, actions)
    ensures (forall i | 0 <= i < |states| :: ok(states[i])) <==>
            forall j | 0 <= j < |actions| :: good(states[j], actions[j])
  {
    if forall j | 0 <= j < |actions| :: good(states[j], actions[j]) {
      forall i | 0 <= i < |states|
        ensures ok(states[i])
      {
        ExactPrefix(inv, ok, good, states, actions, i);
      }
    }
    if forall i | 0 <= i < |states| :: ok(states[i]) {
      ExactPrefix(inv, ok, good, states, actions, |actions|);
    }
  }

  /** inv survives the good steps. */
  ghost predicate KeptBy(inv: State -> bool, good: (State, Action) -> bool) {
    forall s, a | inv(s) && Possible(s, a) && good(s, a) :: inv(Step(s, a))
  }

  lemma {:induction false} KeptInRun(inv: State -> bool, good: (State, Action) -> bool, states: seq<State>,
                                     actions: seq<Action>, i: nat, j: nat)
    requires KeptBy(inv, good) && IsRun(states, actions) && i <= j < |states| && inv(states[i])
    requires forall l | i <= l < j :: good(states[l], actions[l])
    ensures inv(states[j])
    decreases j
  {
    if i < j {
      KeptInRun(inv, good, states, actions, i, j - 1);
      assert Possible(states[j - 1], actions[j - 1]) && states[j] == Step(states[j - 1], actions[j - 1]);
    }
  }

  // The instance table

  lemma TablesExact()
    ensures Exact((s: State) => TablesOk(s.nets, s.db), (s: State) => TablesOk(s.nets, s.db),
                  (s, a) => KeepsTables(s, a))
  {
    FirstStartInv();
    forall s: State, a | TablesOk(s.nets, s.db) && Possible(s, a)
      ensures var s' := Step(s, a); if KeepsTables(s, a) then TablesOk(s'.nets, s'.db) else !TablesOk(s'.nets, s'.db)
    {
      StepTables(s, a);
    }
  }

  /** The instance table follows memory throughout a run if and only if no step loses rows. */
  lemma RunTablesIff(states: seq<State>, actions: seq<Action>)
    requires IsRun(states, actions)
    ensures (forall i | 0 <= i < |states| :: TablesOk(states[i].nets, states[i].db)) <==>
            forall j | 0 <= j < |actions| :: KeepsTables(states[j], actions[j])
  {
    TablesExact();
    ExactRun((s: State) => TablesOk(s.nets, s.db), (s: State) => TablesOk(s.nets, s.db), (s, a) => KeepsTables(s, a),
             states, actions);
  }

  // Records

  lemma AliveExact()
    ensures Exact((s: State) => Alive(s), (s: State) => Alive(s), (s, a) => KeepsTrack(s, a))
  {
    FirstStartInv();
    forall s, a | Alive(s) && Possible(s, a)
      ensures if KeepsTrack(s, a) then Alive(Step(s, a)) else !Alive(Step(s, a))
    {
      StepTables(s, a);
      StepLive(s, a);
    }
  }

  /**
   * Whatever the calls on the pending table answer: the instance table follows memory and every record is
   * live throughout a run if and only if no step loses rows or strands a record.
   */
  lemma RunAliveIff(states: seq<State>, actions: seq<Action>)
    requires IsRun(states, actions)
    ensures (forall i | 0 <= i < |states| :: Alive(states[i])) <==>
            forall j | 0 <= j < |actions| :: KeepsTrack(states[j], actions[j])
  {
    AliveExact();
    ExactRun((s: State) => Alive(s), (s: State) => Alive(s), (s, a) => KeepsTrack(s, a), states, actions);
  }

  lemma RunAlive(states: seq<State>, actions: seq<Action>, i: nat)
    requires IsRun(states, actions) && i < |states|
    requires forall j | 0 <= j < i :: KeepsTrack(states[j], actions[j])
    ensures Alive(states[i])
  {
    AliveExact();
    ExactPrefix((s: State) => Alive(s), (s: State) => Alive(s), (s, a) => KeepsTrack(s, a), states, actions, i);
  }

  lemma TrackedKept()
    ensures KeptBy((s: State) => Tracked(s), (s, a) => KeepsTrack(s, a) && Inserts(a))
  {
    forall s, a | Tracked(s) && Possible(s, a) && KeepsTrack(s, a) && Inserts(a)
      ensures Tracked(Step(s, a))
    {
      StepTracked(s, a);
    }
  }

  lemma RunTracked(states: seq<State>, actions: seq<Action>, i: nat)
    requires IsRun(states, actions) && i < |states|
    requires forall j | 0 <= j < i :: KeepsTrack(states[j], actions[j]) && Inserts(actions[j])
    ensures Tracked(states[i])
  {
    TrackedKept();
    FirstStartInv();
    KeptInRun((s: State) => Tracked(s), (s, a) => KeepsTrack(s, a) && Inserts(a), states, actions, 0, i);
  }

  /** Where inserts succeed, memory has no more copies of a record than the table either. */
  lemma RunTrackedIff(states: seq<State>, actions: seq<Action>)
    requires IsRun(states, actions) && forall j | 0 <= j < |actions| :: Inserts(actions[j])
    ensures (forall i | 0 <= i < |states| :: Tracked(states[i])) <==>
            forall j | 0 <= j < |actions| :: KeepsTrack(states[j], actions[j])
  {
    if forall j | 0 <= j < |actions| :: KeepsTrack(states[j], actions[j]) {
      forall i | 0 <= i < |states|
        ensures Tracked(states[i])
      {
        RunTracked(states, actions, i);
      }
    }
    if forall i | 0 <= i < |states| :: Tracked(states[i]) {
      RunAliveIff(states, actions);
    }
  }

  /**
   * What that means for every point of such a run, moves, failed releases and unwritten nodes included: an
   * instance has one place, and every record in memory and in the table is live.
   */
  lemma LiveRuns(states: seq<State>, actions: seq<Action>, i: nat)
    requires IsRun(states, actions) && i < |states|
    requires forall j | 0 <= j < i :: KeepsTrack(states[j], actions[j])
    ensures var s := states[i];
            && (forall j, k | Held(s.nets, j) && Held(s.nets, k) && j.ident == k.ident :: j == k)
            && (forall p | p in s.pending || p in s.db.pending :: LiveRecord(s.nets, p))
  {
    var s := states[i];
    RunAlive(states, actions, i);
    forall j, k | Held(s.nets, j) && Held(s.nets, k) && j.ident == k.ident
      ensures j == k
    {
      HeldOnce(s.nets, s.db.instances, j, k);
    }
  }

  // All tables

  lemma MirrorExact()
    ensures Exact((s: State) => Mirror(s.nets, s.db), (s: State) => Mirror(s.nets, s.db), (s, a) => InStep(s, a))
  {
    FirstStartInv();
    forall s: State, a | Mirror(s.nets, s.db) && Possible(s, a)
      ensures if InStep(s, a) then Mirror(Step(s, a).nets, Step(s, a).db) else !Mirror(Step(s, a).nets, Step(s, a).db)
    {
      StepMirrored(s, a);
    }
  }

  /** The tables say what memory says throughout a run if and only if every step leaves them in step. */
  lemma RunMirrorIff(states: seq<State>, actions: seq<Action>)
    requires IsRun(states, actions)
    ensures (forall i | 0 <= i < |states| :: Mirror(states[i].nets, states[i].db)) <==>
            forall j | 0 <= j < |actions| :: InStep(states[j], actions[j])
  {
    MirrorExact();
    ExactRun((s: State) => Mirror(s.nets, s.db), (s: State) => Mirror(s.nets, s.db), (s, a) => InStep(s, a),
             states, actions);
  }

  // Addresses

  ghost predicate Sound(s: State) {
    Apportioned(s) && TablesOk(s.nets, s.db)
  }

  lemma PartitionExact()
    ensures Exact((s: State) => Sound(s), (s: State) => Partitioned(s), (s, a) => Clean(s, a))
  {
    FirstStartInv();
    forall s, a | Sound(s) && Possible(s, a)
      ensures if Clean(s, a) then Sound(Step(s, a)) else !Partitioned(Step(s, a))
    {
      StepPartitioned(s, a);
      if Clean(s, a) {
        CleanKeepsTables(s, a);
        StepTables(s, a);
      }
    }
  }

  /** The addresses of every network are partitioned throughout a run if and only if every step is clean. */
  lemma RunPartitionIff(states: seq<State>, actions: seq<Action>)
    requires IsRun(states, actions)
    ensures (forall i | 0 <= i < |states| :: Partitioned(states[i])) <==>
            forall j | 0 <= j < |actions| :: Clean(states[j], actions[j])
  {
    PartitionExact();
    ExactRun((s: State) => Sound(s), (s: State) => Partitioned(s), (s, a) => Clean(s, a), states, actions);
  }

  lemma RunSound(states: seq<State>, actions: seq<Action>, i: nat)
    requires IsRun(states, actions) && i < |states|
    requires forall j | 0 <= j < i :: Clean(states[j], actions[j])
    ensures Sound(states[i])
  {
    PartitionExact();
    ExactPrefix((s: State) => Sound(s), (s: State) => Partitioned(s), (s, a) => Clean(s, a), states, actions, i);
  }

  /** The whole invariant holds throughout a run if and only if every step is clean and strands no record. */
  lemma RunIff(states: seq<State>, actions: seq<Action>)
    requires IsRun(states, actions) && forall j | 0 <= j < |actions| :: Inserts(actions[j])
    ensures (forall i | 0 <= i < |states| :: Inv(states[i])) <==>
            forall j | 0 <= j < |actions| :: Clean(states[j], actions[j]) && !Strands(states[j], actions[j])
  {
    RunPartitionIff(states, actions);
    RunTrackedIff(states, actions);
    if forall j | 0 <= j < |actions| :: Clean(states[j], actions[j]) && !Strands(states[j], actions[j]) {
      forall j | 0 <= j < |actions|
        ensures KeepsTrack(states[j], actions[j])
      {
        RunSound(states, actions, j);
        CleanKeepsTables(states[j], actions[j]);
      }
      forall i | 0 <= i < |states|
        ensures Inv(states[i])
      {
        RunSound(states, actions, i);
        RunNames(states, actions, i);
      }
    }
  }

  // What a restart repairs

  ghost predicate InPlace(s: State) {
    Placed(s) && TablesOk(s.nets, s.db)
  }

  lemma PlacedExact()
    ensures Exact((s: State) => InPlace(s), (s: State) => InPlace(s), (s, a) => KeepsSubnets(s, a))
  {
    FirstStartInv();
    FirstStartPlaced();
    forall s, a | InPlace(s) && Possible(s, a)
      ensures if KeepsSubnets(s, a) then InPlace(Step(s, a)) else !InPlace(Step(s, a))
    {
      StepTables(s, a);
      if KeepsTables(s, a) {
        StepPlaced(s, a);
      }
    }
  }

  /** Every address stays in its network's subnet throughout a run if and only if no step loses rows or a subnet. */
  lemma RunPlacedIff(states: seq<State>, actions: seq<Action>)
    requires IsRun(states, actions)
    ensures (forall i | 0 <= i < |states| :: InPlace(states[i])) <==>
            forall j | 0 <= j < |actions| :: KeepsSubnets(states[j], actions[j])
  {
    PlacedExact();
    ExactRun((s: State) => InPlace(s), (s: State) => InPlace(s), (s, a) => KeepsSubnets(s, a), states, actions);
  }

  /**
   * At any point of such a run, after moves, failed releases, failed allocations and unwritten rows: a
   * restart frees exactly what nobody holds, and partitions the addresses if and only if none has got two
   * owners by then.
   */
  lemma RunRepaired(states: seq<State>, actions: seq<Action>, i: nat, networks: seq<NetworkID>)
    requires IsRun(states, actions) && i < |states| && ListsNetworks(networks, states[i].db)
    requires forall j | 0 <= j < i :: KeepsSubnets(states[j], actions[j])
    ensures var s' := Init(states[i].db, networks);
            && s'.ip.used.Keys == s'.nets.Keys
            && (forall n | n in s'.nets ::
                  forall a :: a in s'.ip.used[n].ips <==>
                              HostAddress(s'.nets[n].network.subnet, a) && !exists o :: Uses(s'.nets[n], o, a))
            && (Partitioned(s') <==> OneOwnerEach(s'.nets))
  {
    PlacedExact();
    ExactPrefix((s: State) => InPlace(s), (s: State) => InPlace(s), (s, a) => KeepsSubnets(s, a), states, actions, i);
    RestartRepairs(states[i], networks);
    var s' := Init(states[i].db, networks);
    forall n, a | n in s'.nets
      ensures a in s'.ip.used[n].ips <==>
              HostAddress(s'.nets[n].network.subnet, a) && !exists o :: Uses(s'.nets[n], o, a)
    {
      FreeAre(s'.nets[n], a);
    }
  }

  // Addresses in clean runs

  /** In every clean run the address of an instance is no other instance's, no node's, and free in no network. */
  lemma RunsAreSafe(states: seq<State>, actions: seq<Action>, i: nat, k: Slot)
    requires IsRun(states, actions) && i < |states| && Held(states[i].nets, k)
    requires forall j | 0 <= j < i :: Clean(states[j], actions[j])
    ensures var s := states[i];
            && (forall j | Held(s.nets, j) && At(s.nets, j).ip == At(s.nets, k).ip :: j == k)
            && (forall h | HasHost(s.nets, h) :: HostAt(s.nets, h).ip != At(s.nets, k).ip)
            && (forall n | n in s.ip.used :: At(s.nets, k).ip !in s.ip.used[n].ips)
  {
    var s, ip := states[i], At(states[i].nets, k).ip;
    RunSound(states, actions, i);
    HeldIsUsed(s.nets, k);
    forall j | Held(s.nets, j) && At(s.nets, j).ip == ip
      ensures j == k
    {
      OneHolder(s, j, k);
    }
    forall h | HasHost(s.nets, h)
      ensures HostAt(s.nets, h).ip != ip
    {
      if HostAt(s.nets, h).ip == ip {
        assert Uses(s.nets[h.networkID], Node(h.nodeID), ip);
        OneOwner(s, k.networkID, Inst(k.nodeID, k.ident), h.networkID, Node(h.nodeID), ip);
      }
    }
    forall n | n in s.ip.used
      ensures ip !in s.ip.used[n].ips
    {
      UsedNotFree(s, k.networkID, Inst(k.nodeID, k.ident), n, ip);
    }
  }
}
