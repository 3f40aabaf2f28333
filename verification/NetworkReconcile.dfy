/**
 * Reconciliation with a node: what an undisturbed SyncNetworkState achieves, and how long a stored record
 * lasts (src/cm/networkmanager/networkmanager.cpp).
 */
module NetworkReconcile {
  import opened Cidr
  import opened Seqs
  import opened IpSubnets
  import opened NetworkTypes
  import opened NetworkDatabase
  import opened FirewallRules
  import opened PendingConnections
  import opened NetworkSpec
  import opened NetworkInvariant
  import opened NetworkSteps
  import opened NetworkTables
  import opened NetworkRecords
  import opened NetworkAddresses
  import opened NetworkRuns

  // The releases

  lemma ReleaseHeld(s: State, k: Slot, removeOk: bool, forgetOk: InstanceIdent -> bool, order: Order)
    requires MirrorInstances(s.nets, s.db.instances) && Held(s.nets, k) && IsOrder(order)
    ensures ReleaseInstance(s, k.ident, k.nodeID, removeOk, forgetOk, order) == ReleaseSlot(s, k, removeOk, forgetOk)
  {
    var j := ReleaseCases(s, k.ident, k.nodeID, removeOk, forgetOk, order);
    HeldOnce(s.nets, s.db.instances, j.value, k);
  }

  /** What the release of one instance does: it takes the instance, or fails and takes nothing. */
  ghost predicate Released(s: State, k: Slot, removeOk: bool, forgetOk: bool, s': State) {
    if removeOk then
      && OneMore(s'.nets, s.nets, k) && !Held(s'.nets, k)
      && s'.db.pending == (if forgetOk then Forget(s.db.pending, k.ident) else s.db.pending)
    else s'.nets == s.nets && s'.db.pending == s.db.pending
  }

  lemma SlotReleased(s: State, k: Slot, removeOk: bool, forgetOk: InstanceIdent -> bool)
    requires TablesOk(s.nets, s.db) && Held(s.nets, k)
    ensures Released(s, k, removeOk, forgetOk(k.ident), ReleaseSlot(s, k, removeOk, forgetOk).0)
  {
    TablesAfterDrop(s.nets, s.db, k);
    LookupAfterDrop(s.nets, k);
  }

  /** The release of an instance with a good answer keeps inv. */
  ghost predicate ReleaseHolds(inv: State -> bool, good: InstanceIdent -> bool, removeOk: InstanceIdent -> bool,
                               forgetOk: InstanceIdent -> bool, order: Order, s: State, k: Slot)
    requires IsOrder(order)
  {
    inv(s) && Held(s.nets, k) && good(k.ident) ==>
      var s' := ReleaseInstance(s, k.ident, k.nodeID, removeOk(k.ident), forgetOk, order).0;
      inv(s') && Released(s, k, removeOk(k.ident), forgetOk(k.ident), s')
  }

  ghost predicate ReleasesHold(inv: State -> bool, good: InstanceIdent -> bool, removeOk: InstanceIdent -> bool,
                               forgetOk: InstanceIdent -> bool, order: Order)
    requires IsOrder(order)
  {
    forall s, k :: ReleaseHolds(inv, good, removeOk, forgetOk, order, s, k)
  }

  lemma TablesReleasesHold(removeOk: InstanceIdent -> bool, forgetOk: InstanceIdent -> bool, order: Order)
    requires IsOrder(order)
    ensures ReleasesHold((s: State) => TablesOk(s.nets, s.db), _ => true, removeOk, forgetOk, order)
  {
    var inv, good := (s: State) => TablesOk(s.nets, s.db), (_: InstanceIdent) => true;
    forall s: State, k: Slot
      ensures ReleaseHolds(inv, good, removeOk, forgetOk, order, s, k)
    {
      if TablesOk(s.nets, s.db) && Held(s.nets, k) {
        ReleaseHeld(s, k, removeOk(k.ident), forgetOk, order);
        TablesReleaseSlot(s, k, removeOk(k.ident), forgetOk);
        SlotReleased(s, k, removeOk(k.ident), forgetOk);
      }
    }
  }

  /** Alive, and no copies in memory but those of the table if that is asked for. */
  ghost predicate AliveAll(s: State, copies: bool) {
    Alive(s) && (copies ==> Within(s.pending, s.db.pending))
  }

  lemma AliveRelease(s: State, k: Slot, removeOk: bool, forgetOk: InstanceIdent -> bool, copies: bool)
    requires AliveAll(s, copies) && Held(s.nets, k) && (removeOk ==> forgetOk(k.ident))
    ensures AliveAll(ReleaseSlot(s, k, removeOk, forgetOk).0, copies)
  {
    TablesReleaseSlot(s, k, removeOk, forgetOk);
    RecordsReleaseSlot(s, k, removeOk, forgetOk);
    if copies {
      WithinReleaseRow(s, k, removeOk, forgetOk);
    }
  }

  /** Whatever is released is forgotten. */
  function Forgets(removeOk: InstanceIdent -> bool, forgetOk: InstanceIdent -> bool): InstanceIdent -> bool {
    (i: InstanceIdent) => removeOk(i) ==> forgetOk(i)
  }

  lemma AliveReleasesHold(removeOk: InstanceIdent -> bool, forgetOk: InstanceIdent -> bool, order: Order, copies: bool)
    requires IsOrder(order)
    ensures ReleasesHold((s: State) => AliveAll(s, copies), Forgets(removeOk, forgetOk), removeOk, forgetOk, order)
  {
    var inv, good := (s: State) => AliveAll(s, copies), Forgets(removeOk, forgetOk);
    forall s: State, k: Slot
      ensures ReleaseHolds(inv, good, removeOk, forgetOk, order, s, k)
    {
      if AliveAll(s, copies) && Held(s.nets, k) && good(k.ident) {
        ReleaseHeld(s, k, removeOk(k.ident), forgetOk, order);
        AliveRelease(s, k, removeOk(k.ident), forgetOk, copies);
        SlotReleased(s, k, removeOk(k.ident), forgetOk);
      }
    }
  }

  function Both(removeOk: InstanceIdent -> bool, forgetOk: InstanceIdent -> bool): InstanceIdent -> bool {
    (i: InstanceIdent) => removeOk(i) && forgetOk(i)
  }

  /** All listed instances go unless the storage fails, with their stored records; the others stay. */
  lemma {:induction false} ReleaseAllReleases(inv: State -> bool, good: InstanceIdent -> bool, s: State,
                                              slots: seq<Slot>, nodeID: NodeID, removeOk: InstanceIdent -> bool,
                                              forgetOk: InstanceIdent -> bool, order: Order)
    requires IsOrder(order) && ReleasesHold(inv, good, removeOk, forgetOk, order) && inv(s) && NoDup(slots)
    requires forall k | k in slots :: Held(s.nets, k) && k.nodeID == nodeID && good(k.ident)
    ensures var s' := ReleaseAll(s, slots, nodeID, removeOk, forgetOk, order);
            && inv(s')
            && (forall k :: Held(s'.nets, k) <==> Held(s.nets, k) && !(k in slots && removeOk(k.ident)))
            && (forall k | Held(s'.nets, k) :: At(s'.nets, k) == At(s.nets, k))
            && (forall p :: p in s'.db.pending <==>
                            p in s.db.pending && !RequestedBy(p, slots, Both(removeOk, forgetOk)))
    decreases slots
  {
    if slots != [] {
      var k := slots[0];
      assert k in slots && slots == [k] + slots[1..];
      var s1 := ReleaseInstance(s, k.ident, nodeID, removeOk(k.ident), forgetOk, order).0;
      assert ReleaseHolds(inv, good, removeOk, forgetOk, order, s, k);
      ReleaseAllReleases(inv, good, s1, slots[1..], nodeID, removeOk, forgetOk, order);
      ForgetMembers(s.db.pending, k.ident);
    }
  }

  lemma StaleMembers(nets: Nets, nodeID: NodeID, report: seq<InstanceReport>, order: Order)
    requires IsOrder(order)
    ensures var slots := Filter(order(nets), StaleSlots(nodeID, report));
            NoDup(slots) && forall k :: k in slots <==> Held(nets, k) && Stale(nodeID, report, k)
  {
    assert Enumerates(order(nets), nets);
    FilterNoDup(order(nets), StaleSlots(nodeID, report));
    forall k
      ensures k in Filter(order(nets), StaleSlots(nodeID, report)) <==> Held(nets, k) && Stale(nodeID, report, k)
    {
      FilterMember(order(nets), StaleSlots(nodeID, report), k);
    }
  }

  lemma RequestedIsStale(s: State, nodeID: NodeID, report: seq<InstanceReport>, slots: seq<Slot>,
                         ok: InstanceIdent -> bool, p: PendingConnection)
    requires Alive(s) && p in s.db.pending
    requires forall k :: k in slots <==> Held(s.nets, k) && Stale(nodeID, report, k)
    ensures Held(s.nets, SlotOfRecord(p))
    ensures RequestedBy(p, slots, ok) <==> Stale(nodeID, report, SlotOfRecord(p)) && ok(p.requester)
  {
    assert LiveRecord(s.nets, p);
    if j :| j in slots && j.ident == p.requester {
      HeldOnce(s.nets, s.db.instances, j, SlotOfRecord(p));
    }
  }

  /** The stored records of what is released can be deleted. */
  ghost predicate StaleForgotten(s: State, nodeID: NodeID, report: seq<InstanceReport>,
                                 removeOk: InstanceIdent -> bool, forgetOk: InstanceIdent -> bool) {
    forall k | Held(s.nets, k) && Stale(nodeID, report, k) && removeOk(k.ident) :: forgetOk(k.ident)
  }

  /** The state after the releases of a reconciliation. */
  ghost function Unstale(s: State, nodeID: NodeID, report: seq<InstanceReport>, removeOk: InstanceIdent -> bool,
                         forgetOk: InstanceIdent -> bool, order: Order): State
    requires IsOrder(order)
  {
    ReleaseAll(s, Filter(order(s.nets), StaleSlots(nodeID, report)), nodeID, removeOk, forgetOk, order)
  }

  lemma SyncReleases(s: State, nodeID: NodeID, report: seq<InstanceReport>, removeOk: InstanceIdent -> bool,
                     forgetOk: InstanceIdent -> bool, order: Order, copies: bool)
    requires AliveAll(s, copies) && IsOrder(order) && StaleForgotten(s, nodeID, report, removeOk, forgetOk)
    ensures var s1 := Unstale(s, nodeID, report, removeOk, forgetOk, order);
            && AliveAll(s1, copies)
            && (forall k :: Held(s1.nets, k) <==>
                            Held(s.nets, k) && !(Stale(nodeID, report, k) && removeOk(k.ident)))
            && (forall k | Held(s1.nets, k) :: At(s1.nets, k) == At(s.nets, k))
            && (forall p :: p in s1.db.pending <==> p in s.db.pending && Held(s1.nets, SlotOfRecord(p)))
  {
    var slots := Filter(order(s.nets), StaleSlots(nodeID, report));
    StaleMembers(s.nets, nodeID, report, order);
    AliveReleasesHold(removeOk, forgetOk, order, copies);
    ReleaseAllReleases((t: State) => AliveAll(t, copies), Forgets(removeOk, forgetOk), s, slots, nodeID, removeOk,
                       forgetOk, order);
    forall p | p in s.db.pending
      ensures Held(s.nets, SlotOfRecord(p))
      ensures RequestedBy(p, slots, Both(removeOk, forgetOk)) <==>
              Stale(nodeID, report, SlotOfRecord(p)) && removeOk(p.requester)
    {
      RequestedIsStale(s, nodeID, report, slots, Both(removeOk, forgetOk), p);
    }
  }

  // The final round

  ghost predicate PushedIn(pushed: seq<Updates>, nodeID: NodeID, ident: InstanceIdent, rule: FirewallRule) {
    exists u | u in pushed :: Pushed(u, nodeID, ident, rule)
  }

  ghost predicate TargetIn(p: PendingConnection, slots: seq<Slot>) {
    exists k | k in slots :: k.ident.itemID == p.target
  }

  /** Looking at every instance pushes every record whose rule exists, and only those leave memory. */
  lemma {:induction false} ResolveAllPushes(s: State, slots: seq<Slot>, order: Order, pushed: seq<Updates>,
                                            p: PendingConnection)
    requires IsOrder(order) && OneNodeEach(s.pending)
    ensures var (s', pushed') := ResolveAll(s, slots, order, pushed);
            && (forall u | u in pushed :: u in pushed')
            && var rule := RuleFor(s.nets, order(s.nets), p);
               && (p in s'.pending <==> p in s.pending && !(rule.Some? && TargetIn(p, slots)))
               && (p in s.pending && rule.Some? && TargetIn(p, slots) ==>
                     PushedIn(pushed', p.nodeID, p.requester, rule.value))
    decreases slots
  {
    if slots != [] {
      var item := slots[0].ident.itemID;
      var (s1, updates) := Resolve(s, item, order);
      var keep := Unresolvable(s.nets, order(s.nets), item);
      assert slots == [slots[0]] + slots[1..];
      forall q
        ensures q in s1.pending <==> q in s.pending && keep(q)
      {
        FilterMember(s.pending, keep, q);
      }
      ResolveAllPushes(s1, slots[1..], order, pushed + [updates], p);
      if p in s.pending && !keep(p) {
        CollectPushes(s.nets, order(s.nets), item, s.pending, map[], p);
        assert updates in pushed + [updates];
      }
    }
  }

  ghost predicate SlotsMatch(nets: Nets) {
    forall k | Held(nets, k) :: At(nets, k).ident == k.ident
  }

  lemma RuleNeedsTarget(s: State, order: Order, p: PendingConnection)
    requires IsOrder(order) && SlotsMatch(s.nets) && RuleFor(s.nets, order(s.nets), p).Some?
    ensures TargetIn(p, order(s.nets))
  {
    assert Enumerates(order(s.nets), s.nets);
    SearchSound(s.nets, order(s.nets), QueryOf(p), false);
  }

  lemma {:induction false} ResolveAllFrame(s: State, slots: seq<Slot>, order: Order, pushed: seq<Updates>)
    requires IsOrder(order)
    ensures var s' := ResolveAll(s, slots, order, pushed).0; s' == s.(pending := s'.pending)
    decreases slots
  {
    if slots != [] {
      var (s1, updates) := Resolve(s, slots[0].ident.itemID, order);
      ResolveAllFrame(s1, slots[1..], order, pushed + [updates]);
    }
  }

  lemma {:induction false} ResolveAllMembers(s: State, slots: seq<Slot>, order: Order, pushed: seq<Updates>)
    requires IsOrder(order)
    ensures var s' := ResolveAll(s, slots, order, pushed).0;
            && (forall p | p in s'.pending :: p in s.pending)
            && (Within(s.pending, s.db.pending) ==> Within(s'.pending, s'.db.pending))
    decreases slots
  {
    if slots != [] {
      var item := slots[0].ident.itemID;
      RecordsResolve(s, item, order);
      if Within(s.pending, s.db.pending) {
        WithinResolve(s, item, order);
      }
      var (s1, updates) := Resolve(s, item, order);
      ResolveAllMembers(s1, slots[1..], order, pushed + [updates]);
    }
  }

  lemma ResolveAllAlive(s: State, slots: seq<Slot>, order: Order, copies: bool)
    requires AliveAll(s, copies) && IsOrder(order)
    ensures AliveAll(ResolveAll(s, slots, order, []).0, copies)
  {
    ResolveAllFrame(s, slots, order, []);
    ResolveAllMembers(s, slots, order, []);
  }

  /** The part after the cleanup: every record in memory whose rule exists is pushed, the others wait. */
  ghost predicate Delivered(s2: State, s': State, pushed: seq<Updates>, order: Order)
    requires IsOrder(order)
  {
    && s' == s2.(pending := s'.pending)
    && (forall p | p in s'.pending :: p in s2.pending)
    && (forall p | p in s2.pending ::
          match RuleFor(s2.nets, order(s2.nets), p)
          case Some(rule) => p !in s'.pending && PushedIn(pushed, p.nodeID, p.requester, rule)
          case None => p in s'.pending)
  }

  lemma ResolveAllDelivers(s: State, order: Order)
    requires IsOrder(order) && OneNodeEach(s.pending) && SlotsMatch(s.nets)
    ensures var (s', pushed) := ResolveAll(s, order(s.nets), order, []);
            Delivered(s, s', pushed, order)
  {
    var (s', pushed) := ResolveAll(s, order(s.nets), order, []);
    ResolveAllFrame(s, order(s.nets), order, []);
    forall p
      ensures p in s'.pending ==> p in s.pending
      ensures p in s.pending ==>
                match RuleFor(s.nets, order(s.nets), p)
                case Some(rule) => p !in s'.pending && PushedIn(pushed, p.nodeID, p.requester, rule)
                case None => p in s'.pending
    {
      ResolveAllPushes(s, order(s.nets), order, [], p);
      if RuleFor(s.nets, order(s.nets), p).Some? {
        RuleNeedsTarget(s, order, p);
      }
    }
  }

  // The whole reconciliation

  /** The record was read, is confirmed, and the deletion of a copy succeeds. */
  ghost predicate Settled(s: State, nodeID: NodeID, report: seq<InstanceReport>, answers: Answers, order: Order,
                          p: PendingConnection)
    requires IsOrder(order)
  {
    && answers.readOk && Confirmed(s.nets, order(s.nets), nodeID, report, p)
    && Deleted(s.db.pending, 0, answers.removeOk, p)
  }

  lemma CleanedRows(s: State, nodeID: NodeID, report: seq<InstanceReport>, answers: Answers, order: Order)
    requires Alive(s) && IsOrder(order)
    ensures forall p :: p in CleanedLists(s, nodeID, report, answers, order).rows <==>
                        p in s.db.pending && !Settled(s, nodeID, report, answers, order, p)
  {
    var (l, l') := (Lists(s.pending, s.db.pending), CleanedLists(s, nodeID, report, answers, order));
    LiveKeys(s);
    assert Enumerates(order(s.nets), s.nets);
    CleanedMembers(s, nodeID, report, answers, order);
    forall p | p in s.db.pending
      ensures p in l'.rows <==> !Settled(s, nodeID, report, answers, order, p)
    {
      if answers.readOk {
        CleanRows(s.nets, order(s.nets), nodeID, report, l.rows, 0, answers.removeOk, l, p);
        assert p in l'.rows <==> multiset(l'.rows)[p] > 0;
        assert multiset(l.rows)[p] > 0;
      }
    }
  }

  lemma {:induction false} ReloadLists(nodeID: NodeID, todo: seq<PendingConnection>, memory: seq<PendingConnection>)
    ensures var memory' := Reload(nodeID, todo, memory);
            && (forall p | p in memory :: p in memory')
            && (forall p | p in todo && p.nodeID == nodeID :: p in memory')
  {
    if todo != [] {
      var missing := todo[0].nodeID == nodeID && todo[0] !in memory;
      assert todo == [todo[0]] + todo[1..];
      ReloadLists(nodeID, todo[1..], if missing then memory + [todo[0]] else memory);
    }
  }

  /** The cleanup and reload of one node. */
  lemma CleanAndReloadDelivers(s: State, nodeID: NodeID, report: seq<InstanceReport>, answers: Answers, order: Order,
                               copies: bool)
    requires AliveAll(s, copies) && IsOrder(order)
    ensures var s' := CleanAndReload(s, nodeID, report, answers, order);
            && AliveAll(s', copies) && s'.nets == s.nets
            && (forall p :: p in s'.db.pending <==>
                            p in s.db.pending && !Settled(s, nodeID, report, answers, order, p))
            && (answers.reloadOk ==> forall p | p in s'.db.pending && p.nodeID == nodeID :: p in s'.pending)
  {
    var l := CleanedLists(s, nodeID, report, answers, order);
    ReconcileKeepsTables(s, nodeID, report, answers, order);
    RecordsReconcile(s, nodeID, report, answers, order);
    CleanedRows(s, nodeID, report, answers, order);
    ReloadLists(nodeID, l.rows, l.memory);
    if copies {
      WithinReconcile(s, nodeID, report, answers, order);
    }
  }

  /** Cleanup, reload and the final round over all instances. */
  lemma SyncPushes(s1: State, nodeID: NodeID, report: seq<InstanceReport>, answers: Answers, order: Order, copies: bool)
    requires AliveAll(s1, copies) && IsOrder(order)
    ensures var s2 := CleanAndReload(s1, nodeID, report, answers, order);
            var (s', pushed) := ResolveAll(s2, order(s2.nets), order, []);
            && AliveAll(s', copies) && s'.nets == s1.nets && s2.nets == s1.nets
            && (forall p :: p in s'.db.pending <==>
                            p in s1.db.pending && !Settled(s1, nodeID, report, answers, order, p))
            && (answers.reloadOk ==> forall p | p in s'.db.pending && p.nodeID == nodeID :: p in s2.pending)
            && Delivered(s2, s', pushed, order)
  {
    var s2 := CleanAndReload(s1, nodeID, report, answers, order);
    CleanAndReloadDelivers(s1, nodeID, report, answers, order, copies);
    LiveKeys(s2);
    ResolveAllAlive(s2, order(s2.nets), order, copies);
    ResolveAllDelivers(s2, order);
  }

  /**
   * What an undisturbed SyncNetworkState delivers: stale instances are gone unless their row could not be
   * removed; the stored records are those of held requesters that have not been settled; every record of the
   * node whose rule exists now has been pushed to the node, if the reload could read them, and every other
   * one waits in memory.
   */
  lemma SyncDelivers(s: State, nodeID: NodeID, report: seq<InstanceReport>, removeOk: InstanceIdent -> bool,
                     answers: Answers, order: Order, copies: bool)
    requires AliveAll(s, copies) && IsOrder(order) && StaleForgotten(s, nodeID, report, removeOk, answers.forgetOk)
    ensures var s1 := Unstale(s, nodeID, report, removeOk, answers.forgetOk, order);
            var (s', pushed) := Sync(s, nodeID, report, removeOk, answers, order);
            && AliveAll(s', copies) && s'.nets == s1.nets
            && (forall k :: Held(s'.nets, k) <==>
                            Held(s.nets, k) && !(Stale(nodeID, report, k) && removeOk(k.ident)))
            && (forall k | Held(s'.nets, k) :: At(s'.nets, k) == At(s.nets, k))
            && (forall p :: p in s'.db.pending <==>
                            p in s.db.pending && Held(s'.nets, SlotOfRecord(p)) &&
                            !Settled(s1, nodeID, report, answers, order, p))
            && (copies ==> forall p | p in s'.pending :: p in s'.db.pending)
            && (answers.reloadOk ==>
                  forall p | p in s'.db.pending && p.nodeID == nodeID ::
                    match RuleFor(s'.nets, order(s'.nets), p)
                    case Some(rule) => p !in s'.pending && PushedIn(pushed, nodeID, p.requester, rule)
                    case None => p in s'.pending)
  {
    SyncReleases(s, nodeID, report, removeOk, answers.forgetOk, order, copies);
    SyncPushes(Unstale(s, nodeID, report, removeOk, answers.forgetOk, order), nodeID, report, answers, order, copies);
    if copies {
      var s' := Sync(s, nodeID, report, removeOk, answers, order).0;
      WithinMembers(s'.pending, s'.db.pending);
    }
  }

  // Addresses under reconciliation

  lemma {:induction false} ReleaseAllSound(s: State, slots: seq<Slot>, nodeID: NodeID, removeOk: InstanceIdent -> bool,
                                           forgetOk: InstanceIdent -> bool, order: Order)
    requires Sound(s) && IsOrder(order) && forall k | k in slots :: removeOk(k.ident)
    ensures Sound(ReleaseAll(s, slots, nodeID, removeOk, forgetOk, order))
    decreases slots
  {
    if slots != [] {
      assert slots[0] in slots;
      var ident := slots[0].ident;
      ReleaseApportioned(s, ident, nodeID, true, forgetOk, order);
      TablesRelease(s, ident, nodeID, true, forgetOk, order);
      var s1 := ReleaseInstance(s, ident, nodeID, true, forgetOk, order).0;
      ReleaseAllSound(s1, slots[1..], nodeID, removeOk, forgetOk, order);
    }
  }

  /** What is free stays free while instances are released. */
  lemma {:induction false} ReleaseAllOnlyFrees(s: State, slots: seq<Slot>, nodeID: NodeID,
                                               removeOk: InstanceIdent -> bool, forgetOk: InstanceIdent -> bool,
                                               order: Order, n: NetworkID, a: Addr)
    requires IsOrder(order) && IsFree(s, n, a)
    ensures IsFree(ReleaseAll(s, slots, nodeID, removeOk, forgetOk, order), n, a)
    decreases slots
  {
    if slots != [] {
      var ident := slots[0].ident;
      var j := ReleaseCases(s, ident, nodeID, removeOk(ident), forgetOk, order);
      var s1 := ReleaseInstance(s, ident, nodeID, removeOk(ident), forgetOk, order).0;
      ReleaseAllOnlyFrees(s1, slots[1..], nodeID, removeOk, forgetOk, order, n, a);
    }
  }

  /** k's address is free afterwards, and no other instance has changed. */
  ghost predicate OnlyFreed(s: State, k: Slot, s': State)
    requires Held(s.nets, k)
  {
    && s'.ip.used.Keys == s.ip.used.Keys
    && (k.networkID in s.ip.used ==> IsFree(s', k.networkID, At(s.nets, k).ip))
    && (forall j | Held(s.nets, j) && j != k :: Held(s'.nets, j) && At(s'.nets, j) == At(s.nets, j))
  }

  lemma ReleaseSlotFrees(s: State, k: Slot, removeOk: bool, forgetOk: InstanceIdent -> bool)
    requires Held(s.nets, k)
    ensures OnlyFreed(s, k, ReleaseSlot(s, k, removeOk, forgetOk).0)
  {
    LookupAfterDrop(s.nets, k);
  }

  /** Releasing a held instance frees its address, whether or not its row can be removed. */
  ghost predicate FreesHeld(inv: State -> bool, removeOk: InstanceIdent -> bool, forgetOk: InstanceIdent -> bool,
                            order: Order, s: State, k: Slot)
    requires IsOrder(order)
  {
    inv(s) && Held(s.nets, k) ==>
      var s' := ReleaseInstance(s, k.ident, k.nodeID, removeOk(k.ident), forgetOk, order).0;
      inv(s') && OnlyFreed(s, k, s')
  }

  ghost predicate FreesAll(inv: State -> bool, removeOk: InstanceIdent -> bool, forgetOk: InstanceIdent -> bool,
                           order: Order)
    requires IsOrder(order)
  {
    forall s, k :: FreesHeld(inv, removeOk, forgetOk, order, s, k)
  }

  lemma TablesFreeAll(removeOk: InstanceIdent -> bool, forgetOk: InstanceIdent -> bool, order: Order)
    requires IsOrder(order)
    ensures FreesAll((s: State) => TablesOk(s.nets, s.db), removeOk, forgetOk, order)
  {
    var inv := (s: State) => TablesOk(s.nets, s.db);
    forall s: State, k: Slot
      ensures FreesHeld(inv, removeOk, forgetOk, order, s, k)
    {
      if TablesOk(s.nets, s.db) && Held(s.nets, k) {
        ReleaseHeld(s, k, removeOk(k.ident), forgetOk, order);
        TablesReleaseSlot(s, k, removeOk(k.ident), forgetOk);
        ReleaseSlotFrees(s, k, removeOk(k.ident), forgetOk);
      }
    }
  }

  lemma {:induction false} ReleaseAllFrees(inv: State -> bool, s: State, slots: seq<Slot>, nodeID: NodeID,
                                           removeOk: InstanceIdent -> bool, forgetOk: InstanceIdent -> bool,
                                           order: Order, k: Slot)
    requires IsOrder(order) && inv(s) && FreesAll(inv, removeOk, forgetOk, order)
    requires NoDup(slots) && k in slots && k.networkID in s.ip.used
    requires forall j | j in slots :: Held(s.nets, j) && j.nodeID == nodeID
    ensures IsFree(ReleaseAll(s, slots, nodeID, removeOk, forgetOk, order), k.networkID, At(s.nets, k).ip)
    decreases slots
  {
    var j := slots[0];
    assert j in slots && slots == [j] + slots[1..];
    var s1 := ReleaseInstance(s, j.ident, nodeID, removeOk(j.ident), forgetOk, order).0;
    assert FreesHeld(inv, removeOk, forgetOk, order, s, j);
    if j == k {
      ReleaseAllOnlyFrees(s1, slots[1..], nodeID, removeOk, forgetOk, order, k.networkID, At(s.nets, k).ip);
    } else {
      ReleaseAllFrees(inv, s1, slots[1..], nodeID, removeOk, forgetOk, order, k);
    }
  }

  ghost predicate AllRemovable(s: State, nodeID: NodeID, report: seq<InstanceReport>, removeOk: InstanceIdent -> bool) {
    forall k | Held(s.nets, k) && Stale(nodeID, report, k) :: removeOk(k.ident)
  }

  /** Only the releases touch addresses. */
  lemma SyncAddresses(s: State, nodeID: NodeID, report: seq<InstanceReport>, removeOk: InstanceIdent -> bool,
                      answers: Answers, order: Order)
    requires IsOrder(order)
    ensures var s1 := Unstale(s, nodeID, report, removeOk, answers.forgetOk, order);
            var s' := Sync(s, nodeID, report, removeOk, answers, order).0;
            s'.nets == s1.nets && s'.ip == s1.ip && s'.dropped == s1.dropped
  {
    var s1 := Unstale(s, nodeID, report, removeOk, answers.forgetOk, order);
    var s2 := CleanAndReload(s1, nodeID, report, answers, order);
    ResolveAllFrame(s2, order(s2.nets), order, []);
  }

  lemma SyncSound(s: State, nodeID: NodeID, report: seq<InstanceReport>, removeOk: InstanceIdent -> bool,
                  answers: Answers, order: Order)
    requires Sound(s) && IsOrder(order) && AllRemovable(s, nodeID, report, removeOk)
    ensures Apportioned(Sync(s, nodeID, report, removeOk, answers, order).0)
  {
    var slots := Filter(order(s.nets), StaleSlots(nodeID, report));
    StaleMembers(s.nets, nodeID, report, order);
    ReleaseAllSound(s, slots, nodeID, removeOk, answers.forgetOk, order);
    SyncAddresses(s, nodeID, report, removeOk, answers, order);
    ApportionedAlike(ReleaseAll(s, slots, nodeID, removeOk, answers.forgetOk, order),
                     Sync(s, nodeID, report, removeOk, answers, order).0);
  }

  lemma SyncBreaks(s: State, nodeID: NodeID, report: seq<InstanceReport>, removeOk: InstanceIdent -> bool,
                   answers: Answers, order: Order, k: Slot)
    requires Sound(s) && IsOrder(order) && Held(s.nets, k) && Stale(nodeID, report, k) && !removeOk(k.ident)
    ensures !Partitioned(Sync(s, nodeID, report, removeOk, answers, order).0)
  {
    var slots, inv := Filter(order(s.nets), StaleSlots(nodeID, report)), (t: State) => TablesOk(t.nets, t.db);
    StaleMembers(s.nets, nodeID, report, order);
    TablesFreeAll(removeOk, answers.forgetOk, order);
    ReleaseAllFrees(inv, s, slots, nodeID, removeOk, answers.forgetOk, order, k);
    TablesReleasesHold(removeOk, answers.forgetOk, order);
    ReleaseAllReleases(inv, _ => true, s, slots, nodeID, removeOk, answers.forgetOk, order);
    SyncAddresses(s, nodeID, report, removeOk, answers, order);
    HeldWhileFree(Sync(s, nodeID, report, removeOk, answers, order).0, k);
  }

  /** Reconciliation keeps the addresses partitioned exactly if the row of every stale instance can be removed. */
  lemma SyncIff(s: State, nodeID: NodeID, report: seq<InstanceReport>, removeOk: InstanceIdent -> bool,
                answers: Answers, order: Order)
    requires Sound(s) && IsOrder(order)
    ensures Partitioned(Sync(s, nodeID, report, removeOk, answers, order).0) <==>
            AllRemovable(s, nodeID, report, removeOk)
  {
    if AllRemovable(s, nodeID, report, removeOk) {
      SyncSound(s, nodeID, report, removeOk, answers, order);
    } else {
      var k :| Held(s.nets, k) && Stale(nodeID, report, k) && !removeOk(k.ident);
      SyncBreaks(s, nodeID, report, removeOk, answers, order, k);
    }
  }

  // How long a stored record lasts

  /** The step confirms the record, or releases, moves or refreshes its requester. */
  ghost predicate Retires(s: State, a: Action, p: PendingConnection)
    requires Possible(s, a)
  {
    match a
    case AllocateAt(k, _, _) => k.ident == p.requester && (Held(s.nets, k) || Migrates(s, k))
    case Release(i, d, removeOk, _, _) => i == p.requester && removeOk && HeldOnNode(s, i, d)
    case ReleaseNodeAt(h, _, _, _) => Held(s.nets, Slot(h.networkID, h.nodeID, p.requester))
    case Reconcile(d, report, answers, order) => Settled(s, d, report, answers, order, p)
    case _ => false
  }

  lemma InstallKeepsRecords(s: State, k: Slot, ip: Addr, dnsServers: seq<string>, req: Request, env: Env,
                            p: PendingConnection)
    requires HasHost(s.nets, HostKey(k.networkID, k.nodeID)) && IsOrder(env.order) && p in s.db.pending
    ensures p in Install(s, k, ip, dnsServers, req, env).0.db.pending
  {
  }

  lemma AllocateKeepsRecord(s: State, k: Slot, req: Request, env: Env, p: PendingConnection)
    requires IsOrder(env.order) && p in s.db.pending && !(k.ident == p.requester && (Held(s.nets, k) || Migrates(s, k)))
    ensures p in Allocate(s, k, req, env).0.db.pending
  {
    var j := AllocateCases(s, k, req, env);
    ForgetMembers(s.db.pending, k.ident);
    if HasHost(s.nets, HostKey(k.networkID, k.nodeID)) {
      if Held(s.nets, k) {
        var unresolved := RefreshCases(s, k, req, env);
      } else if j.Some? {
        MigrateCases(s, k, j.value, req, env);
        if DeleteInstance(s.db, k.ident, env.removeInstanceOk).1 {
          var x := At(s.nets, j.value);
          InstallKeepsRecords(Unplaced(s, k, j.value, env.answers.forgetOk), k, x.ip, x.dnsServers, req, env, p);
        }
      } else if TakeIP(s.ip, k.networkID).Some? {
        var (ip, ips) := TakeIP(s.ip, k.networkID).value;
        InstallKeepsRecords(s.(ip := ips), k, ip, [env.dnsIP], req, env, p);
      }
    }
  }

  lemma ReleaseNodeKeepsRecord(s: State, h: HostKey, failAt: nat, forgetOk: InstanceIdent -> bool, order: Order,
                               p: PendingConnection)
    requires IsOrder(order) && p in s.db.pending && !Held(s.nets, Slot(h.networkID, h.nodeID, p.requester))
    ensures p in ReleaseNode(s, h, failAt, forgetOk, order).0.db.pending
  {
    if HasHost(s.nets, h) {
      var slots := ReleaseNodeCases(s, h, failAt, forgetOk, order);
      forall k | k in slots
        ensures k.ident != p.requester
      {
        assert k == Slot(h.networkID, h.nodeID, k.ident);
      }
      ReleaseRowsRecords(s, slots, failAt, forgetOk);
      assert !RequestedBy(p, slots, forgetOk);
    }
  }

  lemma ReleaseKeepsRecord(s: State, ident: InstanceIdent, nodeID: NodeID, removeOk: bool,
                           forgetOk: InstanceIdent -> bool, order: Order, p: PendingConnection)
    requires IsOrder(order) && p in s.db.pending && !(ident == p.requester && removeOk && HeldOnNode(s, ident, nodeID))
    ensures p in ReleaseInstance(s, ident, nodeID, removeOk, forgetOk, order).0.db.pending
  {
    var k := ReleaseCases(s, ident, nodeID, removeOk, forgetOk, order);
    ForgetMembers(s.db.pending, ident);
  }

  lemma GetNodeKeepsRecords(s: State, networkID: NetworkID, nodeID: NodeID, e: NodeInput)
    ensures GetNodeNetworkParams(s, networkID, nodeID, e).0.db.pending == s.db.pending
  {
  }

  lemma ReconcileKeepsRecord(s: State, nodeID: NodeID, report: seq<InstanceReport>, answers: Answers, order: Order,
                             p: PendingConnection)
    requires Alive(s) && IsOrder(order) && p in s.db.pending && !Settled(s, nodeID, report, answers, order, p)
    ensures p in CleanAndReload(s, nodeID, report, answers, order).db.pending
  {
    CleanedRows(s, nodeID, report, answers, order);
  }

  /** A stored record survives every step but those. */
  lemma RecordSurvives(s: State, a: Action, p: PendingConnection)
    requires Alive(s) && Possible(s, a) && p in s.db.pending && !Retires(s, a, p)
    ensures p in Step(s, a).db.pending
  {
    match a
    case GetNode(n, d, e) => GetNodeKeepsRecords(s, n, d, e);
    case AllocateAt(k, req, env) => AllocateKeepsRecord(s, k, req, env, p);
    case Release(i, d, removeOk, forgetOk, order) => ReleaseKeepsRecord(s, i, d, removeOk, forgetOk, order, p);
    case ReleaseNodeAt(h, failAt, forgetOk, order) => ReleaseNodeKeepsRecord(s, h, failAt, forgetOk, order, p);
    case Reconcile(d, report, answers, order) => ReconcileKeepsRecord(s, d, report, answers, order, p);
    case ResolveFor(_, _) =>
    case Restart(_) =>
  }

  /** The step leaves the record where it is, and the tables on track. */
  ghost predicate Retains(s: State, a: Action, p: PendingConnection) {
    KeepsTrack(s, a) && (Possible(s, a) ==> !Retires(s, a, p))
  }

  ghost predicate Stores(s: State, p: PendingConnection) {
    Alive(s) && p in s.db.pending
  }

  lemma RetainsStored(p: PendingConnection)
    ensures KeptBy((s: State) => Stores(s, p), (s, a) => Retains(s, a, p))
  {
    forall s, a | Stores(s, p) && Possible(s, a) && Retains(s, a, p)
      ensures Stores(Step(s, a), p)
    {
      RecordSurvives(s, a, p);
      StepTables(s, a);
      StepLive(s, a);
    }
  }

  /** Between two points of a run without such a step the record stays in the database, restarts included. */
  lemma RecordSurvivesRun(states: seq<State>, actions: seq<Action>, i: nat, j: nat, p: PendingConnection)
    requires IsRun(states, actions) && i <= j < |states| && Stores(states[i], p)
    requires forall l | i <= l < j :: Retains(states[l], actions[l], p)
    ensures Stores(states[j], p)
  {
    RetainsStored(p);
    KeptInRun((s: State) => Stores(s, p), (s, a) => Retains(s, a, p), states, actions, i, j);
  }

  /**
   * So a lost push is repeated: the next undisturbed reconciliation of the node, if it can read the records,
   * either settles the record, or releases its requester, or pushes the rule again, if there is one by then.
   */
  lemma LostPushRepeated(states: seq<State>, actions: seq<Action>, i: nat, j: nat, p: PendingConnection,
                         report: seq<InstanceReport>, removeOk: InstanceIdent -> bool, answers: Answers, order: Order)
    requires IsRun(states, actions) && i <= j < |states| && Stores(states[i], p) && IsOrder(order)
    requires forall l | i <= l < j :: Retains(states[l], actions[l], p)
    requires answers.reloadOk && StaleForgotten(states[j], p.nodeID, report, removeOk, answers.forgetOk)
    ensures var s1 := Unstale(states[j], p.nodeID, report, removeOk, answers.forgetOk, order);
            var (s', pushed) := Sync(states[j], p.nodeID, report, removeOk, answers, order);
            || !Held(s'.nets, SlotOfRecord(p))
            || Settled(s1, p.nodeID, report, answers, order, p)
            || match RuleFor(s'.nets, order(s'.nets), p)
               case Some(rule) => PushedIn(pushed, p.nodeID, p.requester, rule)
               case None => p in s'.pending
  {
    RecordSurvivesRun(states, actions, i, j, p);
    SyncDelivers(states[j], p.nodeID, report, removeOk, answers, order, false);
  }
}
