/**
 * The search for the instance behind an allowed connection
 * (GetInstanceRule and PrepareFirewallRules in src/cm/networkmanager/networkmanager.cpp).
 */
module FirewallRules {
  import opened Cidr
  import opened Wrappers
  import opened NetPool
  import opened Seqs
  import opened NetworkTypes

  /** A wanted connection with the requester's subnet and address. */
  datatype Query = Query(itemID: string, port: string, protocol: string, subnet: Subnet, ip: Addr)

  /** order lists every held instance exactly once. */
  ghost predicate Enumerates(order: seq<Slot>, nets: Nets) {
    NoDup(order) && forall k :: k in order <==> Held(nets, k)
  }

  ghost predicate IsOrder(order: Order) {
    forall nets :: Enumerates(order(nets), nets)
  }

  predicate RuleExists(x: Instance, port: string, protocol: string) {
    ExposedPort(protocol, port) in x.exposedPorts
  }

  function RuleTo(x: Instance, q: Query): FirewallRule {
    FirewallRule(x.ip, q.port, q.protocol, q.ip)
  }

  /** The rule for a query, and whether any instance of the item was seen. */
  function Search(nets: Nets, order: seq<Slot>, q: Query, found: bool): (Option<FirewallRule>, bool)
    requires forall k | k in order :: Held(nets, k)
  {
    if order == [] then (None, found)
    else
      var x := At(nets, order[0]);
      if x.ident.itemID != q.itemID then Search(nets, order[1..], q, found)
      else if NetworkContainsIP(q.subnet, x.ip) then (None, true)
      else if RuleExists(x, q.port, q.protocol) then (Some(RuleTo(x, q)), true)
      else Search(nets, order[1..], q, true)
  }

  /** x is an instance of the item that may need a rule. */
  predicate Provides(x: Instance, q: Query) {
    x.ident.itemID == q.itemID && RuleExists(x, q.port, q.protocol) && !NetworkContainsIP(q.subnet, x.ip)
  }

  /** Nothing is returned but rules to held providers. */
  lemma {:induction false} SearchSound(nets: Nets, order: seq<Slot>, q: Query, found: bool)
    requires forall k | k in order :: Held(nets, k)
    ensures var (rule, seen) := Search(nets, order, q, found);
            && (rule.Some? ==>
                  seen && exists k | k in order :: Provides(At(nets, k), q) && rule.value == RuleTo(At(nets, k), q))
            && (seen <==> found || exists k | k in order :: At(nets, k).ident.itemID == q.itemID)
  {
    if order != [] {
      assert order[0] in order;
      var x := At(nets, order[0]);
      assert forall k | k in order :: k == order[0] || k in order[1..];
      if x.ident.itemID != q.itemID {
        SearchSound(nets, order[1..], q, found);
      } else if !NetworkContainsIP(q.subnet, x.ip) && !RuleExists(x, q.port, q.protocol) {
        SearchSound(nets, order[1..], q, true);
      }
    }
  }

  /** A provider is found unless an instance of the item shares the requester's subnet. */
  lemma {:induction false} SearchComplete(nets: Nets, order: seq<Slot>, q: Query, found: bool, k: Slot)
    requires forall k | k in order :: Held(nets, k)
    requires k in order && Provides(At(nets, k), q)
    requires forall j | j in order && At(nets, j).ident.itemID == q.itemID ::
               !NetworkContainsIP(q.subnet, At(nets, j).ip)
    ensures Search(nets, order, q, found).0.Some?
  {
    assert order[0] in order;
    if order[0] != k {
      assert k in order[1..];
      SearchComplete(nets, order[1..], q, found || At(nets, order[0]).ident.itemID == q.itemID, k);
    }
  }

  /** No instance of the item shares the requester's subnet. */
  ghost predicate NoneNear(nets: Nets, q: Query) {
    forall k | Held(nets, k) && At(nets, k).ident.itemID == q.itemID :: !NetworkContainsIP(q.subnet, At(nets, k).ip)
  }

  ghost predicate ProvidedBy(nets: Nets, q: Query, k: Slot) {
    Held(nets, k) && Provides(At(nets, k), q)
  }

  /** Sound and complete, whatever the order of the maps. */
  lemma SearchExact(nets: Nets, order: seq<Slot>, q: Query)
    requires Enumerates(order, nets)
    ensures var (rule, seen) := Search(nets, order, q, false);
            && (seen <==> exists k :: Held(nets, k) && At(nets, k).ident.itemID == q.itemID)
            && (rule.Some? ==> exists k :: ProvidedBy(nets, q, k) && rule.value == RuleTo(At(nets, k), q))
            && (NoneNear(nets, q) ==> (rule.Some? <==> exists k :: ProvidedBy(nets, q, k)))
  {
    SearchSound(nets, order, q, false);
    if k :| NoneNear(nets, q) && ProvidedBy(nets, q, k) {
      SearchComplete(nets, order, q, false, k);
    }
    var (rule, seen) := Search(nets, order, q, false);
    if rule.Some? {
      var k :| k in order && Provides(At(nets, k), q) && rule.value == RuleTo(At(nets, k), q);
      assert ProvidedBy(nets, q, k);
    }
  }

  /** The instance at position i of the walk decides: it is of the item, and near the requester or exposes the port. */
  ghost predicate Ends(nets: Nets, order: seq<Slot>, q: Query, i: int)
    requires forall k | k in order :: Held(nets, k)
  {
    && 0 <= i < |order|
    && At(nets, order[i]).ident.itemID == q.itemID
    && (NetworkContainsIP(q.subnet, At(nets, order[i]).ip) ||
        ExposedPort(q.protocol, q.port) in At(nets, order[i]).exposedPorts)
  }

  ghost predicate Decides(nets: Nets, order: seq<Slot>, q: Query, i: int)
    requires forall k | k in order :: Held(nets, k)
  {
    Ends(nets, order, q, i) && forall j | 0 <= j < i :: !Ends(nets, order, q, j)
  }

  /** The first instance that decides, a near one for no rule and another one for the rule to it. */
  lemma {:induction false} SearchFirst(nets: Nets, order: seq<Slot>, q: Query, found: bool)
    requires forall k | k in order :: Held(nets, k)
    ensures forall i | Decides(nets, order, q, i) ::
              var x := At(nets, order[i]);
              Search(nets, order, q, found).0 ==
              if NetworkContainsIP(q.subnet, x.ip) then None else Some(FirewallRule(x.ip, q.port, q.protocol, q.ip))
    ensures (forall i :: !Decides(nets, order, q, i)) ==> Search(nets, order, q, found).0.None?
  {
    if order != [] {
      var x := At(nets, order[0]);
      assert order[0] in order;
      if Ends(nets, order, q, 0) {
        assert Decides(nets, order, q, 0);
      } else {
        SearchFirst(nets, order[1..], q, found || x.ident.itemID == q.itemID);
        forall i
          ensures i != 0 ==> (Ends(nets, order, q, i) <==> Ends(nets, order[1..], q, i - 1))
        {
        }
        forall i
          ensures Decides(nets, order, q, i) <==> i != 0 && Decides(nets, order[1..], q, i - 1)
        {
          if i != 0 && Decides(nets, order[1..], q, i - 1) {
            forall j | 0 <= j < i
              ensures !Ends(nets, order, q, j)
            {
              assert j == 0 || !Ends(nets, order[1..], q, j - 1);
            }
          }
          if Decides(nets, order, q, i) {
            forall j | 0 <= j < i - 1
              ensures !Ends(nets, order[1..], q, j)
            {
              assert !Ends(nets, order, q, j + 1);
            }
          }
        }
        if j :| Decides(nets, order[1..], q, j) {
          assert Decides(nets, order, q, j + 1);
        }
      }
    }
  }

  method GetInstanceRule(nets: Nets, order: seq<Slot>, q: Query)
    returns (rule: Option<FirewallRule>, instanceFound: bool)
    requires forall k | k in order :: Held(nets, k)
    ensures (rule, instanceFound) == Search(nets, order, q, false)
  {
    instanceFound := false;
    for i := 0 to |order|
      invariant Search(nets, order, q, false) == Search(nets, order[i..], q, instanceFound)
    {
      assert order[i..][1..] == order[i + 1..];
      var instance := At(nets, order[i]);
      if instance.ident.itemID != q.itemID {
        continue;
      }
      instanceFound := true;
      // An instance in the same subnet is reachable without a rule.
      if NetworkContainsIP(q.subnet, instance.ip) {
        return None, true;
      }
      if RuleExists(instance, q.port, q.protocol) {
        return Some(RuleTo(instance, q)), true;
      }
    }
    return None, instanceFound;
  }

  function QueryFor(c: Connection, subnet: Subnet, ip: Addr): Query {
    Query(c.itemID, c.port, c.protocol, subnet, ip)
  }

  /** Rules and unresolved connections of a list; a malformed connection is an error. */
  function Prepare(nets: Nets, order: seq<Slot>, subnet: Subnet, ip: Addr, allowed: seq<Option<Connection>>,
                   rules: seq<FirewallRule>, unresolved: seq<Connection>): Option<(seq<FirewallRule>, seq<Connection>)>
    requires forall k | k in order :: Held(nets, k)
  {
    if allowed == [] then Some((rules, unresolved))
    else if allowed[0].None? then None
    else
      var c := allowed[0].value;
      var (rule, seen) := Search(nets, order, QueryFor(c, subnet, ip), false);
      if rule.Some? then Prepare(nets, order, subnet, ip, allowed[1..], rules + [rule.value], unresolved)
      else if !seen then Prepare(nets, order, subnet, ip, allowed[1..], rules, unresolved + [c])
      else Prepare(nets, order, subnet, ip, allowed[1..], rules, unresolved)
  }

  /** What one allowed connection turns into. */
  datatype Fate = Rule(rule: FirewallRule) | Unresolved | Nothing

  function FateOf(nets: Nets, order: seq<Slot>, subnet: Subnet, ip: Addr, c: Connection): Fate
    requires forall k | k in order :: Held(nets, k)
  {
    var (rule, seen) := Search(nets, order, QueryFor(c, subnet, ip), false);
    if rule.Some? then Rule(rule.value) else if !seen then Unresolved else Nothing
  }

  function RulesOf(fates: seq<Fate>): seq<FirewallRule> {
    if fates == [] then [] else (if fates[0].Rule? then [fates[0].rule] else []) + RulesOf(fates[1..])
  }

  function UnresolvedOf(fates: seq<Fate>, cs: seq<Option<Connection>>): seq<Connection>
    requires |fates| == |cs| && forall c | c in cs :: c.Some?
  {
    if fates == [] then []
    else
      assert cs[0].Some?;
      (if fates[0].Unresolved? then [cs[0].value] else []) + UnresolvedOf(fates[1..], cs[1..])
  }

  /** The fates of a well-formed list, in order. */
  function Fates(nets: Nets, order: seq<Slot>, subnet: Subnet, ip: Addr, allowed: seq<Option<Connection>>)
    : (f: seq<Fate>)
    requires forall k | k in order :: Held(nets, k)
    requires forall c | c in allowed :: c.Some?
    ensures |f| == |allowed|
  {
    if allowed == [] then []
    else
      assert allowed[0].Some?;
      [FateOf(nets, order, subnet, ip, allowed[0].value)] + Fates(nets, order, subnet, ip, allowed[1..])
  }

  /** Each connection becomes one rule, one unresolved connection or nothing, in the given order. */
  lemma {:induction false} PrepareClassifies(nets: Nets, order: seq<Slot>, subnet: Subnet, ip: Addr,
                                             allowed: seq<Option<Connection>>, rules: seq<FirewallRule>,
                                             unresolved: seq<Connection>)
    requires forall k | k in order :: Held(nets, k)
    ensures Prepare(nets, order, subnet, ip, allowed, rules, unresolved) ==
            if forall c | c in allowed :: c.Some? then
              var fates := Fates(nets, order, subnet, ip, allowed);
              Some((rules + RulesOf(fates), unresolved + UnresolvedOf(fates, allowed)))
            else None
  {
    if allowed == [] {
      assert rules + [] == rules && unresolved + [] == unresolved;
    } else {
      assert forall c | c in allowed :: c == allowed[0] || c in allowed[1..];
      if allowed[0].Some? {
        var c := allowed[0].value;
        var (rule, seen) := Search(nets, order, QueryFor(c, subnet, ip), false);
        var rules' := if rule.Some? then rules + [rule.value] else rules;
        var unresolved' := if rule.None? && !seen then unresolved + [c] else unresolved;
        PrepareClassifies(nets, order, subnet, ip, allowed[1..], rules', unresolved');
        if forall c | c in allowed :: c.Some? {
          var fates := Fates(nets, order, subnet, ip, allowed);
          assert fates[1..] == Fates(nets, order, subnet, ip, allowed[1..]);
          Associate(rules, if fates[0].Rule? then [fates[0].rule] else [], RulesOf(fates[1..]));
          Associate(unresolved, if fates[0].Unresolved? then [c] else [], UnresolvedOf(fates[1..], allowed[1..]));
          assert rules + [] == rules && unresolved + [] == unresolved;
        }
      }
    }
  }

  /** rule is what the walk finds for a query. */
  ghost predicate IsRuleFor(nets: Nets, order: seq<Slot>, q: Query, rule: FirewallRule)
    requires forall k | k in order :: Held(nets, k)
  {
    exists i :: Decides(nets, order, q, i) && !NetworkContainsIP(q.subnet, At(nets, order[i]).ip) &&
                rule == FirewallRule(At(nets, order[i]).ip, q.port, q.protocol, q.ip)
  }

  /** The connections for which the walk finds a rule. */
  ghost function Ruled(nets: Nets, order: seq<Slot>, subnet: Subnet, ip: Addr): Option<Connection> -> bool
    requires forall k | k in order :: Held(nets, k)
  {
    (c: Option<Connection>) =>
      c.Some? &&
      exists r :: IsRuleFor(nets, order, Query(c.value.itemID, c.value.port, c.value.protocol, subnet, ip), r)
  }

  /** The connections to an item that no instance is of. */
  ghost function Waiting(nets: Nets): Option<Connection> -> bool {
    (c: Option<Connection>) => c.Some? && forall k | Held(nets, k) :: At(nets, k).ident.itemID != c.value.itemID
  }

  /** rules are those of the connections, one by one. */
  ghost predicate RulesOfAll(nets: Nets, order: seq<Slot>, subnet: Subnet, ip: Addr, cs: seq<Option<Connection>>,
                             rules: seq<FirewallRule>)
    requires forall k | k in order :: Held(nets, k)
  {
    && |rules| == |cs|
    && forall i | 0 <= i < |cs| ::
         && cs[i].Some?
         && var c := cs[i].value;
            IsRuleFor(nets, order, Query(c.itemID, c.port, c.protocol, subnet, ip), rules[i])
  }

  ghost predicate ValuesOf(cs: seq<Option<Connection>>, values: seq<Connection>) {
    |values| == |cs| && forall i | 0 <= i < |cs| :: cs[i] == Some(values[i])
  }

  lemma SearchAnswers(nets: Nets, order: seq<Slot>, q: Query)
    requires Enumerates(order, nets)
    ensures var (rule, seen) := Search(nets, order, q, false);
            && (forall r :: rule == Some(r) <==> IsRuleFor(nets, order, q, r))
            && (seen <==> exists k :: Held(nets, k) && At(nets, k).ident.itemID == q.itemID)
  {
    SearchFirst(nets, order, q, false);
    SearchSound(nets, order, q, false);
    forall i, j | Decides(nets, order, q, i) && Decides(nets, order, q, j)
      ensures i == j
    {
    }
  }

  lemma RulesAppend(nets: Nets, order: seq<Slot>, subnet: Subnet, ip: Addr, cs: seq<Option<Connection>>,
                    rules: seq<FirewallRule>, ds: seq<Option<Connection>>, more: seq<FirewallRule>)
    requires forall k | k in order :: Held(nets, k)
    requires RulesOfAll(nets, order, subnet, ip, cs, rules) && RulesOfAll(nets, order, subnet, ip, ds, more)
    ensures RulesOfAll(nets, order, subnet, ip, cs + ds, rules + more)
  {
  }

  /** What the first connection of a list adds. */
  lemma PrepareFirst(nets: Nets, order: seq<Slot>, subnet: Subnet, ip: Addr, allowed: seq<Option<Connection>>,
                     rules: seq<FirewallRule>, unresolved: seq<Connection>)
    returns (firstRule: seq<FirewallRule>, firstUnresolved: seq<Connection>)
    requires Enumerates(order, nets) && allowed != [] && allowed[0].Some?
    ensures Prepare(nets, order, subnet, ip, allowed, rules, unresolved) ==
            Prepare(nets, order, subnet, ip, allowed[1..], rules + firstRule, unresolved + firstUnresolved)
    ensures RulesOfAll(nets, order, subnet, ip,
                       if Ruled(nets, order, subnet, ip)(allowed[0]) then [allowed[0]] else [], firstRule)
    ensures ValuesOf(if Waiting(nets)(allowed[0]) then [allowed[0]] else [], firstUnresolved)
  {
    var c := allowed[0].value;
    var q := Query(c.itemID, c.port, c.protocol, subnet, ip);
    SearchAnswers(nets, order, q);
    SearchSound(nets, order, q, false);
    var (rule, seen) := Search(nets, order, q, false);
    firstRule := if rule.Some? then [rule.value] else [];
    firstUnresolved := if rule.None? && !seen then [c] else [];
    assert rules + [] == rules && unresolved + [] == unresolved;
  }

  /** The rules and the unresolved connections that a list of connections adds, each in the order of the list. */
  lemma {:induction false} PrepareExactly(nets: Nets, order: seq<Slot>, subnet: Subnet, ip: Addr,
                                          allowed: seq<Option<Connection>>, rules: seq<FirewallRule>,
                                          unresolved: seq<Connection>)
    returns (newRules: seq<FirewallRule>, newUnresolved: seq<Connection>)
    requires Enumerates(order, nets) && Prepare(nets, order, subnet, ip, allowed, rules, unresolved).Some?
    ensures Prepare(nets, order, subnet, ip, allowed, rules, unresolved).value ==
            (rules + newRules, unresolved + newUnresolved)
    ensures RulesOfAll(nets, order, subnet, ip, Filter(allowed, Ruled(nets, order, subnet, ip)), newRules)
    ensures ValuesOf(Filter(allowed, Waiting(nets)), newUnresolved)
  {
    if allowed == [] {
      newRules, newUnresolved := [], [];
      assert rules + [] == rules && unresolved + [] == unresolved;
    } else {
      var firstRule, firstUnresolved := PrepareFirst(nets, order, subnet, ip, allowed, rules, unresolved);
      var moreRules, moreUnresolved :=
        PrepareExactly(nets, order, subnet, ip, allowed[1..], rules + firstRule, unresolved + firstUnresolved);
      newRules, newUnresolved := firstRule + moreRules, firstUnresolved + moreUnresolved;
      Associate(rules, firstRule, moreRules);
      Associate(unresolved, firstUnresolved, moreUnresolved);
      FilterFirst(allowed, Ruled(nets, order, subnet, ip));
      FilterFirst(allowed, Waiting(nets));
      RulesAppend(nets, order, subnet, ip, if Ruled(nets, order, subnet, ip)(allowed[0]) then [allowed[0]] else [],
                  firstRule, Filter(allowed[1..], Ruled(nets, order, subnet, ip)), moreRules);
    }
  }

  method PrepareFirewallRules(nets: Nets, order: seq<Slot>, subnet: Subnet, ip: Addr, allowed: seq<Option<Connection>>)
    returns (ok: bool, rules: seq<FirewallRule>, unresolved: seq<Connection>)
    requires forall k | k in order :: Held(nets, k)
    ensures Prepare(nets, order, subnet, ip, allowed, [], []) == if ok then Some((rules, unresolved)) else None
  {
    rules, unresolved := [], [];
    for i := 0 to |allowed|
      invariant Prepare(nets, order, subnet, ip, allowed, [], []) ==
                Prepare(nets, order, subnet, ip, allowed[i..], rules, unresolved)
    {
      assert allowed[i..][1..] == allowed[i + 1..];
      if allowed[i].None? {
        return false, rules, unresolved;
      }
      var rule, instanceFound := GetInstanceRule(nets, order, QueryFor(allowed[i].value, subnet, ip));
      if rule.Some? {
        rules := rules + [rule.value];
      } else if !instanceFound {
        unresolved := unresolved + [allowed[i].value];
      }
    }
    return true, rules, unresolved;
  }
}
