/**
 * Firewall rules whose target does not exist yet: kept in memory and in the database, pushed when
 * the target appears, dropped from the database when the node reports the rule
 * (the pending connection functions of src/cm/networkmanager/networkmanager.cpp).
 */
module PendingConnections {
  import opened Cidr
  import opened Wrappers
  import opened NetPool
  import opened Seqs
  import opened NetworkTypes
  import opened NetworkDatabase
  import opened FirewallRules

  function Record(k: Slot, ip: Addr, subnet: Subnet, c: Connection): PendingConnection {
    PendingConnection(k.ident, k.nodeID, k.networkID, ip, subnet, c.itemID, c.port, c.protocol)
  }

  function Records(k: Slot, ip: Addr, subnet: Subnet, unresolved: seq<Connection>): seq<PendingConnection> {
    seq(|unresolved|, i requires 0 <= i < |unresolved| => Record(k, ip, subnet, unresolved[i]))
  }

  /** How the calls on the pending table end during one section; the code logs failures and goes on. */
  datatype Answers = Answers(
    forgetOk: InstanceIdent -> bool, // the deletion of a requester's records
    addOk: nat -> bool, // each insert
    readOk: bool, // the read before a cleanup
    removeOk: nat -> bool, // the deletion for each record that was read
    reloadOk: bool) // the read before a reload

  /** The records whose insert succeeds. */
  function Written(records: seq<PendingConnection>, addOk: nat -> bool): seq<PendingConnection> {
    if records == [] then []
    else
      var last := |records| - 1;
      Written(records[..last], addOk) + if addOk(last) then [records[last]] else []
  }

  lemma {:induction false} WrittenCount(records: seq<PendingConnection>, addOk: nat -> bool, p: PendingConnection)
    ensures multiset(Written(records, addOk))[p] <= multiset(records)[p]
  {
    if records != [] {
      var last := |records| - 1;
      WrittenCount(records[..last], addOk, p);
      assert records == records[..last] + [records[last]];
    }
  }

  /** The positions of the records that are written, in order. */
  lemma {:induction false} WrittenSelects(records: seq<PendingConnection>, addOk: nat -> bool) returns (at: seq<nat>)
    ensures |at| == |Written(records, addOk)|
    ensures forall i, j | 0 <= i < j < |at| :: at[i] < at[j]
    ensures forall i | 0 <= i < |at| ::
              at[i] < |records| && addOk(at[i]) && Written(records, addOk)[i] == records[at[i]]
    ensures forall i | 0 <= i < |records| && addOk(i) :: i in at
  {
    if records == [] {
      at := [];
    } else {
      var last := |records| - 1;
      at := WrittenSelects(records[..last], addOk);
      if addOk(last) {
        at := at + [last];
      }
    }
  }

  lemma {:induction false} AllWritten(records: seq<PendingConnection>, addOk: nat -> bool)
    requires forall i | 0 <= i < |records| :: addOk(i)
    ensures Written(records, addOk) == records
  {
    if records != [] {
      AllWritten(records[..|records| - 1], addOk);
    }
  }

  function QueryOf(p: PendingConnection): Query {
    Query(p.target, p.port, p.protocol, p.requesterSubnet, p.requesterIP)
  }

  /** The rule that a record stands for, once its target exists. */
  function RuleFor(nets: Nets, order: seq<Slot>, p: PendingConnection): Option<FirewallRule>
    requires forall k | k in order :: Held(nets, k)
  {
    Search(nets, order, QueryOf(p), false).0
  }

  // CleanConfirmedPendingConnections

  function FindReport(report: seq<InstanceReport>, ident: InstanceIdent): (r: Option<InstanceReport>)
    ensures r.Some? ==>
              exists i | 0 <= i < |report| ::
                r.value == report[i] && report[i].ident == ident && forall j | 0 <= j < i :: report[j].ident != ident
    ensures r.None? ==> forall x | x in report :: x.ident != ident
  {
    if report == [] then None
    else if report[0].ident == ident then Some(report[0])
    else
      var r := FindReport(report[1..], ident);
      assert r.Some? ==>
               exists i | 0 < i < |report| ::
                 r.value == report[i] && report[i].ident == ident &&
                 forall j | 0 <= j < i :: report[j].ident != ident
      by {
        if r.Some? {
          var i :| 0 <= i < |report[1..]| && r.value == report[1..][i] && report[1..][i].ident == ident &&
                   forall j | 0 <= j < i :: report[1..][j].ident != ident;
          assert forall j | 0 < j < i + 1 :: report[j] == report[1..][j - 1];
          assert report[i + 1] == report[1..][i];
        }
      }
      r
  }

  /** The node's report on the requester already contains the record's rule. */
  predicate Confirmed(nets: Nets, order: seq<Slot>, nodeID: NodeID, report: seq<InstanceReport>, p: PendingConnection)
    requires forall k | k in order :: Held(nets, k)
  {
    && p.nodeID == nodeID
    && var r := FindReport(report, p.requester);
       r.Some? && RuleFor(nets, order, p).Some? && RuleFor(nets, order, p).value in r.value.rules
  }

  /** The rule of a record is what the walk finds for its own target, port, protocol, subnet and address. */
  lemma RuleForExactly(nets: Nets, order: seq<Slot>, p: PendingConnection, rule: FirewallRule)
    requires Enumerates(order, nets)
    ensures RuleFor(nets, order, p) == Some(rule) <==>
            IsRuleFor(nets, order, Query(p.target, p.port, p.protocol, p.requesterSubnet, p.requesterIP), rule)
  {
    SearchAnswers(nets, order, QueryOf(p));
  }

  /** A record is confirmed if the node's first report on its requester has the rule. */
  lemma ConfirmedExactly(nets: Nets, order: seq<Slot>, nodeID: NodeID, report: seq<InstanceReport>,
                         p: PendingConnection)
    requires Enumerates(order, nets)
    ensures Confirmed(nets, order, nodeID, report, p) <==>
            && p.nodeID == nodeID
            && exists i, rule | 0 <= i < |report| && rule in report[i].rules ::
                 && report[i].ident == p.requester && (forall j | 0 <= j < i :: report[j].ident != p.requester)
                 && IsRuleFor(nets, order, Query(p.target, p.port, p.protocol, p.requesterSubnet, p.requesterIP), rule)
  {
    SearchAnswers(nets, order, QueryOf(p));
    var r := FindReport(report, p.requester);
    if r.Some? {
      var i :| 0 <= i < |report| && r.value == report[i] && report[i].ident == p.requester &&
               forall j | 0 <= j < i :: report[j].ident != p.requester;
      forall l | 0 <= l < |report| && report[l].ident == p.requester &&
                 forall j | 0 <= j < l :: report[j].ident != p.requester
        ensures l == i
      {
      }
    }
  }

  function RemoveFirst<T(==)>(s: seq<T>, x: T): seq<T> {
    if x in s then RemoveAt(s, IndexOf(s, x)) else s
  }

  datatype Lists = Lists(memory: seq<PendingConnection>, rows: seq<PendingConnection>)

  /** Memory forgets a confirmed record even if its deletion fails. */
  function CleanOne(nets: Nets, order: seq<Slot>, nodeID: NodeID, report: seq<InstanceReport>, p: PendingConnection,
                    removeOk: bool, l: Lists): Lists
    requires forall k | k in order :: Held(nets, k)
  {
    if Confirmed(nets, order, nodeID, report, p) then
      Lists(RemoveFirst(l.memory, p), if removeOk then Filter(l.rows, OtherPartialKey(p)) else l.rows)
    else l
  }

  /** The loop over the rows read at the beginning. */
  function Clean(nets: Nets, order: seq<Slot>, nodeID: NodeID, report: seq<InstanceReport>,
                 todo: seq<PendingConnection>, from: nat, removeOk: nat -> bool, l: Lists): Lists
    requires forall k | k in order :: Held(nets, k)
    requires from <= |todo|
    decreases |todo| - from
  {
    if from == |todo| then l
    else
      Clean(nets, order, nodeID, report, todo, from + 1, removeOk,
            CleanOne(nets, order, nodeID, report, todo[from], removeOk(from), l))
  }

  /** The partial key decides a record among the given ones. */
  ghost predicate PartialKeyDecides(ps: seq<PendingConnection>) {
    forall p, q | p in ps && q in ps && SamePartialKey(p, q) :: p == q
  }

  ghost function Monus(a: nat, b: nat): nat {
    if a <= b then 0 else a - b
  }

  lemma RemoveFirstCount<T>(s: seq<T>, x: T, y: T)
    ensures multiset(RemoveFirst(s, x))[y] == if x == y then Monus(multiset(s)[y], 1) else multiset(s)[y]
  {
    if x in s {
      RemoveAtCount(s, IndexOf(s, x));
    }
  }

  /** The deletion for some copy of the record succeeds. */
  ghost predicate Deleted(todo: seq<PendingConnection>, from: nat, removeOk: nat -> bool, p: PendingConnection) {
    exists i :: from <= i < |todo| && todo[i] == p && removeOk(i)
  }

  lemma CleanOneCount(nets: Nets, order: seq<Slot>, nodeID: NodeID, report: seq<InstanceReport>, t: PendingConnection,
                      removeOk: bool, l: Lists, p: PendingConnection)
    requires forall k | k in order :: Held(nets, k)
    ensures var l' := CleanOne(nets, order, nodeID, report, t, removeOk, l);
            var c := Confirmed(nets, order, nodeID, report, t);
            && multiset(l'.memory)[p] == Monus(multiset(l.memory)[p], if c && t == p then 1 else 0)
            && multiset(l'.rows)[p] == if c && removeOk && SamePartialKey(t, p) then 0 else multiset(l.rows)[p]
  {
    RemoveFirstCount(l.memory, t, p);
    FilterCount(l.rows, OtherPartialKey(t), p);
  }

  lemma {:induction false} CleanMemory(nets: Nets, order: seq<Slot>, nodeID: NodeID, report: seq<InstanceReport>,
                                       todo: seq<PendingConnection>, from: nat, removeOk: nat -> bool, l: Lists,
                                       p: PendingConnection)
    requires forall k | k in order :: Held(nets, k)
    requires from <= |todo|
    ensures var l' := Clean(nets, order, nodeID, report, todo, from, removeOk, l);
            var c := Confirmed(nets, order, nodeID, report, p);
            multiset(l'.memory)[p] == Monus(multiset(l.memory)[p], if c then multiset(todo[from..])[p] else 0)
    decreases |todo| - from
  {
    if from < |todo| {
      assert todo[from..] == [todo[from]] + todo[from + 1..];
      var next := CleanOne(nets, order, nodeID, report, todo[from], removeOk(from), l);
      CleanOneCount(nets, order, nodeID, report, todo[from], removeOk(from), l, p);
      CleanMemory(nets, order, nodeID, report, todo, from + 1, removeOk, next, p);
    }
  }

  lemma {:induction false} CleanRows(nets: Nets, order: seq<Slot>, nodeID: NodeID, report: seq<InstanceReport>,
                                     todo: seq<PendingConnection>, from: nat, removeOk: nat -> bool, l: Lists,
                                     p: PendingConnection)
    requires forall k | k in order :: Held(nets, k)
    requires from <= |todo| && forall t | t in todo && SamePartialKey(t, p) :: t == p
    ensures var l' := Clean(nets, order, nodeID, report, todo, from, removeOk, l);
            multiset(l'.rows)[p] ==
            if Confirmed(nets, order, nodeID, report, p) && Deleted(todo, from, removeOk, p) then 0
            else multiset(l.rows)[p]
    decreases |todo| - from
  {
    if from < |todo| {
      var next := CleanOne(nets, order, nodeID, report, todo[from], removeOk(from), l);
      CleanOneCount(nets, order, nodeID, report, todo[from], removeOk(from), l, p);
      CleanRows(nets, order, nodeID, report, todo, from + 1, removeOk, next, p);
      assert Deleted(todo, from, removeOk, p) <==>
             (todo[from] == p && removeOk(from)) || Deleted(todo, from + 1, removeOk, p);
    }
  }

  lemma {:induction false} CleanAddsNoRow(nets: Nets, order: seq<Slot>, nodeID: NodeID, report: seq<InstanceReport>,
                                          todo: seq<PendingConnection>, from: nat, removeOk: nat -> bool, l: Lists,
                                          p: PendingConnection)
    requires forall k | k in order :: Held(nets, k)
    requires from <= |todo|
    ensures multiset(Clean(nets, order, nodeID, report, todo, from, removeOk, l).rows)[p] <= multiset(l.rows)[p]
    decreases |todo| - from
  {
    if from < |todo| {
      var next := CleanOne(nets, order, nodeID, report, todo[from], removeOk(from), l);
      CleanOneCount(nets, order, nodeID, report, todo[from], removeOk(from), l, p);
      CleanAddsNoRow(nets, order, nodeID, report, todo, from + 1, removeOk, next, p);
    }
  }

  /**
   * Exactly the confirmed records disappear from memory, and from the rows if the deletion of one of their
   * copies succeeds, although the statement uses a partial key.
   */
  lemma CleanRemovesConfirmed(nets: Nets, order: seq<Slot>, nodeID: NodeID, report: seq<InstanceReport>,
                              removeOk: nat -> bool, l: Lists)
    requires forall k | k in order :: Held(nets, k)
    requires PartialKeyDecides(l.rows) && Within(l.memory, l.rows)
    ensures var l' := Clean(nets, order, nodeID, report, l.rows, 0, removeOk, l);
            && Within(l'.memory, l'.rows)
            && (forall p :: p in l'.rows <==>
                            p in l.rows &&
                            !(Confirmed(nets, order, nodeID, report, p) && Deleted(l.rows, 0, removeOk, p)))
            && (forall p :: multiset(l'.memory)[p] ==
                            if Confirmed(nets, order, nodeID, report, p) then 0 else multiset(l.memory)[p])
            && (forall p | p in l'.rows :: multiset(l'.rows)[p] == multiset(l.rows)[p])
  {
    var l' := Clean(nets, order, nodeID, report, l.rows, 0, removeOk, l);
    assert l.rows[0..] == l.rows;
    forall p
      ensures multiset(l'.rows)[p] ==
              if Confirmed(nets, order, nodeID, report, p) && Deleted(l.rows, 0, removeOk, p) then 0
              else multiset(l.rows)[p]
      ensures multiset(l'.memory)[p] ==
              if Confirmed(nets, order, nodeID, report, p) then 0 else multiset(l.memory)[p]
    {
      assert multiset(l.memory)[p] <= multiset(l.rows)[p];
      CleanMemory(nets, order, nodeID, report, l.rows, 0, removeOk, l, p);
      if p in l.rows {
        CleanRows(nets, order, nodeID, report, l.rows, 0, removeOk, l, p);
      } else {
        CleanAddsNoRow(nets, order, nodeID, report, l.rows, 0, removeOk, l, p);
      }
    }
    assert forall p :: p in l'.rows <==> multiset(l'.rows)[p] > 0;
    assert forall p :: p in l.rows <==> multiset(l.rows)[p] > 0;
  }

  // ReloadPendingConnections

  function Reload(nodeID: NodeID, todo: seq<PendingConnection>, memory: seq<PendingConnection>)
    : seq<PendingConnection>
  {
    if todo == [] then memory
    else
      var missing := todo[0].nodeID == nodeID && todo[0] !in memory;
      Reload(nodeID, todo[1..], if missing then memory + [todo[0]] else memory)
  }

  /** One copy of each record of the node that memory does not have goes behind what it has. */
  lemma {:induction false} ReloadExactly(nodeID: NodeID, todo: seq<PendingConnection>, memory: seq<PendingConnection>)
    ensures var memory' := Reload(nodeID, todo, memory);
            && memory <= memory'
            && (forall p :: multiset(memory')[p] ==
                            multiset(memory)[p] + if p.nodeID == nodeID && p in todo && p !in memory then 1 else 0)
  {
    if todo != [] {
      var t := todo[0];
      assert todo == [t] + todo[1..];
      var next := if t.nodeID == nodeID && t !in memory then memory + [t] else memory;
      assert memory <= next;
      ReloadExactly(nodeID, todo[1..], next);
    }
  }

  /** Afterwards memory knows every stored record of the node, and nothing that is not stored. */
  lemma {:induction false} ReloadRestores(nodeID: NodeID, todo: seq<PendingConnection>, memory: seq<PendingConnection>,
                                          rows: seq<PendingConnection>)
    requires Within(memory, rows) && forall p | p in todo :: p in rows
    ensures var memory' := Reload(nodeID, todo, memory);
            && Within(memory', rows)
            && (forall p | p in memory :: p in memory')
            && (forall p | p in todo && p.nodeID == nodeID :: p in memory')
  {
    if todo != [] {
      var t := todo[0];
      assert todo == [t] + todo[1..];
      var next := if t.nodeID == nodeID && t !in memory then memory + [t] else memory;
      forall p
        ensures multiset(next)[p] <= multiset(rows)[p]
      {
        assert multiset(memory)[p] <= multiset(rows)[p];
        assert t in rows;
      }
      ReloadRestores(nodeID, todo[1..], next, rows);
    }
  }

  // ResolvePendingConnections

  predicate Resolvable(nets: Nets, order: seq<Slot>, itemID: string, p: PendingConnection)
    requires forall k | k in order :: Held(nets, k)
  {
    p.target == itemID && RuleFor(nets, order, p).Some?
  }

  function Unresolvable(nets: Nets, order: seq<Slot>, itemID: string): PendingConnection -> bool
    requires forall k | k in order :: Held(nets, k)
  {
    (p: PendingConnection) => !Resolvable(nets, order, itemID, p)
  }

  type Updates = map<InstanceIdent, FirewallUpdate>

  function AddRule(updates: Updates, p: PendingConnection, rule: FirewallRule): Updates {
    var rules := if p.requester in updates then updates[p.requester].rules else [];
    updates[p.requester := FirewallUpdate(p.nodeID, rules + [rule])]
  }

  function CollectOne(nets: Nets, order: seq<Slot>, itemID: string, p: PendingConnection, updates: Updates): Updates
    requires forall k | k in order :: Held(nets, k)
  {
    if Resolvable(nets, order, itemID, p) then AddRule(updates, p, RuleFor(nets, order, p).value) else updates
  }

  /** The updates collected from the records whose rule exists, grouped by requester. */
  function Collect(nets: Nets, order: seq<Slot>, itemID: string, memory: seq<PendingConnection>, updates: Updates)
    : Updates
    requires forall k | k in order :: Held(nets, k)
  {
    if memory == [] then updates
    else Collect(nets, order, itemID, memory[1..], CollectOne(nets, order, itemID, memory[0], updates))
  }

  ghost predicate Pushed(updates: Updates, nodeID: NodeID, ident: InstanceIdent, rule: FirewallRule) {
    ident in updates && updates[ident].nodeID == nodeID && rule in updates[ident].rules
  }

  /** Every requester sits on one node. */
  ghost predicate OneNodeEach(ps: seq<PendingConnection>) {
    forall p, q | p in ps && q in ps && p.requester == q.requester :: p.nodeID == q.nodeID
  }

  lemma {:induction false} CollectKeeps(nets: Nets, order: seq<Slot>, itemID: string, memory: seq<PendingConnection>,
                                        updates: Updates, nodeID: NodeID, ident: InstanceIdent, rule: FirewallRule)
    requires forall k | k in order :: Held(nets, k)
    requires forall p | p in memory && p.requester == ident :: p.nodeID == nodeID
    requires Pushed(updates, nodeID, ident, rule)
    ensures Pushed(Collect(nets, order, itemID, memory, updates), nodeID, ident, rule)
  {
    if memory != [] {
      var p := memory[0];
      assert p in memory;
      var next := CollectOne(nets, order, itemID, p, updates);
      CollectKeeps(nets, order, itemID, memory[1..], next, nodeID, ident, rule);
    }
  }

  /** The rule of each record that left memory is in the update for its requester, addressed to its node. */
  lemma {:induction false} CollectPushes(nets: Nets, order: seq<Slot>, itemID: string, memory: seq<PendingConnection>,
                                         updates: Updates, p: PendingConnection)
    requires forall k | k in order :: Held(nets, k)
    requires OneNodeEach(memory) && p in memory && Resolvable(nets, order, itemID, p)
    ensures Pushed(Collect(nets, order, itemID, memory, updates), p.nodeID, p.requester, RuleFor(nets, order, p).value)
  {
    var q := memory[0];
    assert q in memory;
    var next := CollectOne(nets, order, itemID, q, updates);
    if q == p {
      CollectKeeps(nets, order, itemID, memory[1..], next, p.nodeID, p.requester, RuleFor(nets, order, p).value);
    } else {
      assert p in memory[1..];
      CollectPushes(nets, order, itemID, memory[1..], next, p);
    }
  }

  /** Nothing is pushed but rules of records that were pending. */
  lemma {:induction false} CollectSound(nets: Nets, order: seq<Slot>, itemID: string, memory: seq<PendingConnection>,
                                        updates: Updates, ident: InstanceIdent, rule: FirewallRule)
    requires forall k | k in order :: Held(nets, k)
    requires var u := Collect(nets, order, itemID, memory, updates); ident in u && rule in u[ident].rules
    ensures || (ident in updates && rule in updates[ident].rules)
            || (exists p | p in memory :: p.requester == ident && Resolvable(nets, order, itemID, p) &&
                                          RuleFor(nets, order, p).value == rule)
  {
    if memory != [] {
      var q := memory[0];
      assert memory == [q] + memory[1..];
      var next := CollectOne(nets, order, itemID, q, updates);
      CollectSound(nets, order, itemID, memory[1..], next, ident, rule);
    }
  }

  /** The records of a requester that can be resolved now. */
  function Solved(nets: Nets, order: seq<Slot>, itemID: string, ident: InstanceIdent): PendingConnection -> bool
    requires forall k | k in order :: Held(nets, k)
  {
    (p: PendingConnection) => p.requester == ident && p.target == itemID && RuleFor(nets, order, p).Some?
  }

  function RulesIn(updates: Updates, ident: InstanceIdent): seq<FirewallRule> {
    if ident in updates then updates[ident].rules else []
  }

  /** rules are those of the records, one by one. */
  ghost predicate RulesForAll(nets: Nets, order: seq<Slot>, ps: seq<PendingConnection>, rules: seq<FirewallRule>)
    requires forall k | k in order :: Held(nets, k)
  {
    |rules| == |ps| && forall i | 0 <= i < |ps| :: RuleFor(nets, order, ps[i]) == Some(rules[i])
  }

  lemma RulesForAllAppend(nets: Nets, order: seq<Slot>, ps: seq<PendingConnection>, rules: seq<FirewallRule>,
                          qs: seq<PendingConnection>, more: seq<FirewallRule>)
    requires forall k | k in order :: Held(nets, k)
    requires RulesForAll(nets, order, ps, rules) && RulesForAll(nets, order, qs, more)
    ensures RulesForAll(nets, order, ps + qs, rules + more)
  {
  }

  lemma CollectFirst(nets: Nets, order: seq<Slot>, itemID: string, p: PendingConnection, updates: Updates,
                     ident: InstanceIdent) returns (rules: seq<FirewallRule>)
    requires forall k | k in order :: Held(nets, k)
    ensures var solved := if Solved(nets, order, itemID, ident)(p) then [p] else [];
            RulesForAll(nets, order, solved, rules)
    ensures RulesIn(CollectOne(nets, order, itemID, p, updates), ident) == RulesIn(updates, ident) + rules
  {
    rules := if Solved(nets, order, itemID, ident)(p) then [RuleFor(nets, order, p).value] else [];
    assert RulesIn(updates, ident) + [] == RulesIn(updates, ident);
  }

  /** The update for a requester has the rules of its resolvable records, one each, in the order of memory. */
  lemma {:induction false} CollectExactly(nets: Nets, order: seq<Slot>, itemID: string, memory: seq<PendingConnection>,
                                          updates: Updates, ident: InstanceIdent) returns (rules: seq<FirewallRule>)
    requires forall k | k in order :: Held(nets, k)
    ensures RulesForAll(nets, order, Filter(memory, Solved(nets, order, itemID, ident)), rules)
    ensures RulesIn(Collect(nets, order, itemID, memory, updates), ident) == RulesIn(updates, ident) + rules
  {
    if memory == [] {
      rules := [];
      assert RulesIn(updates, ident) + [] == RulesIn(updates, ident);
    } else {
      var p, keep := memory[0], Solved(nets, order, itemID, ident);
      var first := CollectFirst(nets, order, itemID, p, updates, ident);
      var next := CollectOne(nets, order, itemID, p, updates);
      var more := CollectExactly(nets, order, itemID, memory[1..], next, ident);
      rules := first + more;
      Associate(RulesIn(updates, ident), first, more);
      FilterFirst(memory, keep);
      RulesForAllAppend(nets, order, if keep(p) then [p] else [], first, Filter(memory[1..], keep), more);
    }
  }

  /** An update is for a requester with a resolvable record, and goes to the node of the last such record. */
  lemma {:induction false} CollectAddressed(nets: Nets, order: seq<Slot>, itemID: string,
                                            memory: seq<PendingConnection>, updates: Updates, ident: InstanceIdent)
    requires forall k | k in order :: Held(nets, k)
    ensures var (u, solved) := (Collect(nets, order, itemID, memory, updates),
                                Filter(memory, Solved(nets, order, itemID, ident)));
            && (ident in u <==> ident in updates || solved != [])
            && (ident in u ==>
                  u[ident].nodeID == if solved == [] then updates[ident].nodeID else solved[|solved| - 1].nodeID)
  {
    if memory != [] {
      var p, keep := memory[0], Solved(nets, order, itemID, ident);
      var next := CollectOne(nets, order, itemID, p, updates);
      assert ident in next <==> ident in updates || keep(p);
      assert ident in next ==> next[ident].nodeID == if keep(p) then p.nodeID else updates[ident].nodeID;
      CollectAddressed(nets, order, itemID, memory[1..], next, ident);
    }
  }
}
