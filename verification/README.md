# Verification model of the Aos communication manager core

A Dafny model of the parts of the communication manager (CM) whose correctness depends on state kept over many
calls, and proofs about every run of them.

**Network manager** (`src/cm/networkmanager`, its tables in `src/cm/database`). The CM gives each network a subnet
of a private pool, each node of a network and each instance on a node an address of that subnet, each instance its
host names and firewall rules. It mirrors networks, nodes and instances in tables with keys and rebuilds itself from
them at start. A rule whose target does not exist yet waits as a pending record in memory and in the database, is
pushed to the requester's node when the target appears, and leaves the database when the node reports it.

- `NetworkSpec` gives each locked section as a function on the whole state (memory, allocator, tables), and
  `NetworkManagers` the class whose methods compute these functions step by step.
- `NetworkInvariant` says what holds between the sections, in parts that are proved apart: the addresses
  (`NetworkAddresses`), the tables of networks, nodes and instances (`NetworkTables`), the pending records
  (`NetworkRecords`), the host names (`NetworkNames`). `NetworkRuns` states for each part which runs keep it, as an
  if-and-only-if.
- The addresses: each network's host addresses are partitioned into free list, node addresses, instance addresses and
  the addresses of released nodes (which the code never gives back, kept in a ghost ledger). Two parts of the code
  break this, and the model keeps both as they are. Moving an instance to another node (line 703 of
  `networkmanager.cpp`) puts an address on the free list that the instance keeps. A storage failure while releasing
  leaves an address free and held, or a network without a subnet, because only allocation rolls back.
  `RunPartitionIff` says that nothing else does; `NetworkExamples` has a run for each of the three.
- A restart is the one repair: it makes each free list what nobody holds (`NetworkPlacement`, `RunRepaired`), which
  restores the partition unless a freed address has been given to a second owner by then.
- The tables: the instance table equals memory in all runs, moves and failures included, in which no release of a node
  stops half-way through its instances (`RunTablesIff`). A node or a network whose row could not be written stays in
  memory without it until the next start (`RunMirrorIff`).
- The records: failures of the pending table are logged and passed over. A failed insert leaves a record in memory
  only; records of an instance that is released or moved stay in the table if their deletion fails. `RunAliveIff` says
  that only the latter lets a record outlive its requester's place.
- Host names are unique and owned in every run (`RunNames`).
- `NetworkAllocation` has the results and the rollback of an allocation, `NetworkRestart` the start from the tables,
  `NetworkReconcile` the reconciliation with what a node reports and how long a record lasts.
- `NetworkEffects` and `NetworkReleases` say of every section, whatever holds of the state, what exactly it answers and
  what it leaves: free lists, names, rules, records and rows, on each error path as well.
- `Cidr`, `NetPool` and `IpSubnets` are the arithmetic and the allocator below, with 32-bit words written out.

**Cloud protocol** (`src/cm/communication`). `CloudProtocol` has the send queue, the messages in flight and the
response handlers, with one step for each section under the mutex, and a ghost ledger of what happened to each
message; `CloudProtocolDrain` a measure that every step of progress lowers. `CertOrder` is the order in which issued
certificates are installed.

**Stream table and log splitter.** `StreamTable` is the table of update streams that carries the pushes
(`src/cm/smcontroller`), `LogArchiver` the splitting of logs into parts (`src/common/logging`).

Storage, DNS, kernel routes, random numbers and clocks are parameters of the steps: a step is told whether a call
succeeds and what it returns. The iteration order of the hash maps is an arbitrary function of the maps (`Order`),
any one for each step; `OrderExists` shows that there is one.

## Model

| member | source | states |
|---|---|---|
| `NetworkRuns.RunPartitionIff` | src/cm/networkmanager/networkmanager.cpp:96-465 | in any interleaving of the locked sections and of restarts, the host addresses of every network are partitioned into free, dropped and held by one owner at every point, if and only if no step moves an instance to another node or releases with a storage failure after the first change; a node or network whose row cannot be written and failures of the pending table cost no address |
| `NetworkRuns.StepPartitioned` | src/cm/networkmanager/networkmanager.cpp:96-527 | one step from a state with partitioned addresses and an instance table equal to memory keeps the partition exactly when it is such a clean step, and each other step breaks it |
| `NetworkRuns.RunIff` | src/cm/networkmanager/networkmanager.cpp:96-465 | where inserts into the pending table succeed: the whole invariant (addresses partitioned, subnets conserved, instance table equal to memory, records live, names unique and owned) holds at every point of a run if and only if every step is clean and strands no record |
| `NetworkRuns.StepIff` | src/cm/networkmanager/networkmanager.cpp:96-527 | the same for one step, both directions |
| `NetworkRuns.RunsAreSafe` | src/cm/networkmanager/networkmanager.cpp:96-465 | in every clean run, failed rows of nodes and networks included, the address of an instance is held by no other instance of any network and by no node, and is free in no network |
| `NetworkRuns.RunTrackedIff` | src/cm/networkmanager/networkmanager.cpp:96-527 | where inserts into the pending table succeed, besides: memory has no more copies of a record than the table, under the same condition |
| `NetworkRuns.StepTracked` | src/cm/networkmanager/networkmanager.cpp:96-527 | the same for one step, both directions |
| `NetworkRuns.RunAliveIff` | src/cm/networkmanager/networkmanager.cpp:218-921 | whatever the calls on the pending table answer: instance table equal to memory, rows within memory and every record in memory and table live at every point of a run, with moves, failed releases, failed allocations and unwritten nodes, if and only if no step stops half-way through the rows of a node's instances or takes an instance from its slot while the deletion of its records fails |
| `NetworkRuns.StepLive` | src/cm/networkmanager/networkmanager.cpp:371-383 | records stay live after exactly the steps that strand none; failed inserts, refreshes, cleanups and reads strand none |
| `NetworkRuns.RunTablesIff` | src/cm/networkmanager/networkmanager.cpp:96-527 | the instance table equals memory and rows are within memory at every point of a run if and only if no step stops half-way through the rows of a node's instances |
| `NetworkRuns.StepTables` | src/cm/networkmanager/networkmanager.cpp:96-527 | the same for one step; a step that loses rows leaves an instance in memory without its row |
| `NetworkRuns.LiveRuns` | src/cm/networkmanager/networkmanager.cpp:218-229 | at every point of a run that strands no record and loses no rows, an instance has one place in all networks, and each record in memory or table names a held requester with its present node, network, address and subnet |
| `NetworkRuns.RunMirrorIff` | src/cm/networkmanager/networkmanager.cpp:96-527 | all three tables equal memory at every point of a run if and only if, besides, no node or network stays in memory whose row could not be written |
| `NetworkRuns.StepMirrored` | src/cm/networkmanager/networkmanager.cpp:96-527 | the same for one step, both directions |
| `NetworkRuns.RunRepaired` | src/cm/networkmanager/networkmanager.cpp:44-94 | at any point of a run, after moves, failed releases, failed allocations and unwritten rows, a restart makes each free list exactly the host addresses that nobody holds, and partitions the addresses again if and only if none has got two owners by then; only a node's release that stops half-way through its rows or at the network's row is excluded |
| `NetworkRuns.RunPlacedIff` | src/cm/networkmanager/networkmanager.cpp:96-465 | every free and used address lies in its network's subnet, and the instance table equals memory, at every point of a run if and only if no step is such a release |
| `NetworkRuns.StepPlaced` | src/cm/networkmanager/networkmanager.cpp:96-465 | the same for one step that keeps the instance table |
| `NetworkRuns.RunNames` | src/cm/networkmanager/networkmanager.cpp:231-326 | in every run whatever fails, no host name stands twice in the host map, and every entry belongs to the address of a held instance |
| `NetworkExamples.MoveReachable` | src/cm/networkmanager/networkmanager.cpp:266-276 | a run of four steps with nothing failing (two nodes, an instance, its move) ends in a state where only the address partition is broken |
| `NetworkExamples.FailedReleaseReachable` | src/cm/networkmanager/networkmanager.cpp:363-369 | a run of four steps ends with an instance that could not be released, whose address is free as well |
| `NetworkExamples.LostSubnetReachable` | src/cm/networkmanager/networkmanager.cpp:441-453 | a run of two steps ends with a network in memory that has no subnet: the release of its last node could not remove the network's row |
| `NetworkAddresses.MigrationBreaks` | src/cm/networkmanager/networkmanager.cpp:683-728 | every move breaks the partition, however it ends: the address is put on the free list and kept, or put there twice |
| `NetworkAddresses.AllocateApportioned` | src/cm/networkmanager/networkmanager.cpp:179-343 | an allocation keeps subnets conserved and addresses partitioned if and only if it does not move the instance |
| `NetworkAddresses.GetNodeApportioned` | src/cm/networkmanager/networkmanager.cpp:96-177 | node parameters keep addresses partitioned whatever the storage answers |
| `NetworkAddresses.ReleaseApportioned` | src/cm/networkmanager/networkmanager.cpp:345-401 | a release keeps the partition exactly when the storage works or the node does not hold the instance |
| `NetworkAddresses.ReleaseSlotApportioned` | src/cm/networkmanager/networkmanager.cpp:363-369 | a release whose row cannot be removed leaves the address held and free at once |
| `NetworkAddresses.ReleaseNodeApportioned` | src/cm/networkmanager/networkmanager.cpp:403-465 | a node's release keeps the partition exactly when no storage call fails after something has changed; the node's own address goes to the ledger of dropped ones |
| `NetworkAddresses.FreeAddressUnnamed` | src/cm/networkmanager/networkmanager.cpp:276-294 | a free address has no host names, so erasing its entry on rollback loses none |
| `NetworkAddresses.OneHolder` | src/cm/networkmanager/networkmanager.cpp:266-276 | two held instances with the same address are the same, across networks |
| `NetworkAllocation.AllocateRollsBack` | src/cm/networkmanager/networkmanager.cpp:276-326 | with partitioned addresses and owned names alone: every error for a new instance leaves nets, names, records, tables and ledger as they were, the free list at most rotated by one |
| `NetworkAllocation.InstallRollsBack` | src/cm/networkmanager/networkmanager.cpp:276-326 | the deferred rollbacks undo each error after the address was taken, up to rotating the free list |
| `NetworkAllocation.RefreshRestoresNames` | src/cm/networkmanager/networkmanager.cpp:231-255 | an error for an instance that is there already leaves the names of every address as they were, an absent entry read as no names, and the allocator untouched |
| `NetworkAllocation.AllocateGives` | src/cm/networkmanager/networkmanager.cpp:213-329 | after success in any branch, moves included, the instance is held with the returned address, which has exactly the requested names in their order |
| `NetworkTables.AllocatedIff` | src/cm/networkmanager/networkmanager.cpp:258-329 | a new instance is allocated exactly when its node is known and has a row, an address is free, ports and connections are well formed, the wanted names are different and new, DNS and storage work and the instance is held nowhere else: the keys refuse nothing but that |
| `NetworkTables.RefreshedIff` | src/cm/networkmanager/networkmanager.cpp:213-255 | a known instance is refreshed exactly when the connections are well formed, DNS works and the wanted names are different and not taken at another address |
| `NetworkTables.MovedIff` | src/cm/networkmanager/networkmanager.cpp:266-329 | a move succeeds exactly when the old row can be removed and what is left then accepts the instance as a new one |
| `NetworkNames.AddNamesIff` | src/cm/networkmanager/networkmanager.cpp:311-318 | adding names one by one succeeds exactly when the wanted names are pairwise different and none is taken |
| `NetworkTables.TablesGetNode` | src/cm/networkmanager/networkmanager.cpp:96-177 | rows stay within memory whatever fails; parameters are returned exactly when the node is known, or its rows are due, the storage works and a known network has its row; the tables fall behind exactly when a due row cannot be written |
| `NetworkTables.TablesRelease` | src/cm/networkmanager/networkmanager.cpp:345-401 | releasing an instance keeps the tables in step even when the storage fails, and succeeds unless it fails |
| `NetworkTables.TablesReleaseNode` | src/cm/networkmanager/networkmanager.cpp:403-465 | releasing a node succeeds exactly when the node is known, has its row and none of its storage calls fails; tables and memory part exactly when it stops after the first and not after the last row |
| `NetworkRecords.RecordsAllocate` | src/cm/networkmanager/networkmanager.cpp:218-229 | an allocation strands records exactly when it moves the instance and the deletion of its records fails; a failed deletion at a refresh strands none |
| `NetworkRecords.RecordsRelease` | src/cm/networkmanager/networkmanager.cpp:371-383 | a release strands records exactly when it succeeds, the table has some of the instance and their deletion fails |
| `NetworkRecords.RecordsReleaseNode` | src/cm/networkmanager/networkmanager.cpp:420-444 | a node's release strands records exactly when the node goes and the deletion for one of its instances with records fails |
| `NetworkRecords.RecordsReconcile` | src/cm/networkmanager/networkmanager.cpp:788-873 | cleanup and reload strand none, whatever fails |
| `NetworkRecords.LiveKeys` | src/cm/database/database.cpp:660-678 | where records are live, the columns that the deletion of one record compares decide the record, and a requester has one node |
| `NetworkInvariant.HeldOnce` | src/cm/database/database.cpp:1172-1187 | where the instance table equals memory, its primary key leaves an instance one place in all networks |
| `NetworkSteps.VlanIff` | src/cm/networkmanager/networkmanager.cpp:663-681 | the VLAN IDs of the networks stay different exactly when the random number is one that no network has: the loop does not see to that |
| `NetworkRestart.RestartRebuilds` | src/cm/networkmanager/networkmanager.cpp:44-94 | from any state whose instance table equals memory and whose records are live, a restart rebuilds the networks and nodes that have a row, and every instance, after which tables and memory agree; every stored record is pending again and live; complete tables rebuild memory exactly |
| `NetworkRestart.RestartRefines` | src/cm/networkmanager/networkmanager.cpp:44-94 | from partitioned addresses a restart partitions them again: each free list gets what was free, what had been dropped and what nodes without a row held, and subnets without a network row go back to the pool |
| `NetworkRestart.StartIff` | src/cm/networkmanager/networkmanager.cpp:44-94 | from any tables whatever, the start conserves the subnets and partitions the addresses if and only if the networks have different subnets of the pool, every address in use is a host address of its network's subnet and none has two owners |
| `NetworkPlacement.RestartRepairs` | src/cm/networkmanager/networkmanager.cpp:730-745 | from any state in which addresses lie in their subnets and the instance table equals memory, the start makes each free list what nobody holds, and partitions the addresses if and only if none has two owners |
| `NetworkRestart.LoadRestores` | src/cm/networkmanager/networkmanager.cpp:52-77 | reading the three tables is the inverse of writing them |
| `NetworkRestart.LoadRestricts` | src/cm/networkmanager/networkmanager.cpp:52-77 | reading tables that lack nodes or networks gives memory without these, and every instance |
| `NetworkRestart.AccumulatedListHarmless` | src/cm/networkmanager/networkmanager.cpp:730-745 | the address list that is never cleared between networks strikes out no address of another network |
| `NetworkRestart.RecoverAllRestores` | src/cm/networkmanager/networkmanager.cpp:730-745 | after the loop, in whatever order of the networks, each has its subnet out of the pool and exactly its unheld addresses free |
| `NetworkEffects.GetNodeAnswers` | src/cm/networkmanager/networkmanager.cpp:103-144 | in all three branches the parameters returned are the subnet, VLAN ID and node address that memory holds afterwards; for a known node nothing changes |
| `NetworkEffects.NewNodeExactly` | src/cm/networkmanager/networkmanager.cpp:115-134 | a new node of a network takes the head of the free list and is stored with it; its row is written unless the table refuses it, and then there is an error while memory keeps the node |
| `NetworkEffects.NewNetworkExactly` | src/cm/networkmanager/networkmanager.cpp:137-168 | a new network takes its subnet out of the pool, the given VLAN ID and the first host address for its node; nothing else changes; without subnet nothing does, and the rows are written as far as the tables accept them |
| `NetworkEffects.NewNetworkUnrouted` | src/cm/networkmanager/networkmanager.cpp:137-168 | when a network is created, the subnet in memory and in the answer meets no route of the kernel and is the first such of the pool |
| `NetworkEffects.AllocateExactly` | src/cm/networkmanager/networkmanager.cpp:276-329 | a new instance takes the head of the free list and is stored in memory and table with the requested ports and the DNS server; exactly the requested names are added to its address; the answer has one rule for each allowed connection that the walk finds one for, and the pending list grows by one record for each whose item no instance is of, both in the order of the request; the table gets the records whose insert succeeds; every error puts the address behind the free ones and changes nothing else but that address's names |
| `NetworkEffects.RefreshExactly` | src/cm/networkmanager/networkmanager.cpp:213-255 | a known instance keeps address and DNS servers and gets such rules; its records are replaced by such records, also if names or DNS fail later; names are then exactly the requested ones or those of before; a malformed connection changes nothing |
| `NetworkEffects.MoveExactly` | src/cm/networkmanager/networkmanager.cpp:266-329 | a move takes the instance, its row, its records and its names from the other node, frees the address and installs it on the new node with the same address and DNS servers; if the row cannot be removed it stops with the address free and unnamed; if the installation fails the instance is gone and its address free twice |
| `NetworkReleases.ReleaseExactly` | src/cm/networkmanager/networkmanager.cpp:345-401 | releasing an instance frees its address behind those that were free and takes the names of that address and of no other, whether or not its row can be removed; instance, row and records go if it can; an unknown instance changes nothing |
| `NetworkReleases.ReleaseHeldExactly` | src/cm/networkmanager/networkmanager.cpp:345-401 | the same for the one place of a held instance, where the instance table equals memory |
| `NetworkReleases.ReleaseNodeExactly` | src/cm/networkmanager/networkmanager.cpp:403-465 | where the instance table equals memory: the instances of the node are freed one after the other up to the storage call that fails, whose instance has lost only address and names; then the node goes with its row and its address is not freed; with the last node the subnet goes back to the end of the pool and the network goes, unless its row cannot be removed |
| `NetworkReleases.ReleaseNodeNames` | src/cm/networkmanager/networkmanager.cpp:420-432 | in any state: an address that no instance of the node has keeps its names, and once the node is gone each address of its instances has none |
| `NetworkReleases.SyncExactly` | src/cm/networkmanager/networkmanager.cpp:471-517 | reconciliation frees the addresses of exactly the instances that the node has and does not report, in each network in order; those whose row can be removed are gone with rows and records; apart from records nothing else changes |
| `NetworkReleases.SyncNames` | src/cm/networkmanager/networkmanager.cpp:471-500 | after reconciliation an address has no names if an unreported instance of the node had it, and its old names otherwise |
| `NetworkReleases.SyncRecordsExactly` | src/cm/networkmanager/networkmanager.cpp:502-524 | after cleanup and reload, memory loses exactly the records whose item has a held instance and for which the walk finds a rule; one update map is pushed for each held instance, and each rule in it is one of a record in memory for that instance's item |
| `NetworkReleases.CleanAndReloadExactly` | src/cm/networkmanager/networkmanager.cpp:788-873 | for each record the number of its copies in memory and table after cleanup and reload, from those before, the report and the answers of the storage |
| `NetworkReleases.ResolveExactly` | src/cm/networkmanager/networkmanager.cpp:875-921 | records of the item for which the walk finds a rule leave memory with all copies; every other record stays, and table and maps are untouched |
| `NetworkReleases.ResolvedUpdate` | src/cm/networkmanager/networkmanager.cpp:890-909 | the update of a requester has one rule for each of its records that left, in their order, and goes to the node of the last; a requester without such records gets none |
| `NetworkReconcile.SyncDelivers` | src/cm/networkmanager/networkmanager.cpp:467-527 | after an undisturbed reconciliation, from any state with live records, whichever releases, reads and deletions fail as long as what is released is also forgotten: the node's unreported instances whose rows could be removed are gone and no others; the stored records are those of held requesters that were not read, confirmed and deleted; if the reload could read them, each record of the node whose rule exists has been pushed to that node and each other one waits in memory |
| `NetworkReconcile.SyncIff` | src/cm/networkmanager/networkmanager.cpp:467-527 | reconciliation keeps the addresses partitioned exactly when the row of every stale instance can be removed |
| `NetworkReconcile.ResolveAllPushes` | src/cm/networkmanager/networkmanager.cpp:519-524 | a round over all instances takes exactly the records with an existing target and rule from memory and pushes each rule |
| `NetworkReconcile.RecordSurvives` | src/cm/networkmanager/networkmanager.cpp:756-921 | a stored record survives every step but its confirmation with a successful deletion and the release, move or refresh of its requester, whatever else fails |
| `NetworkReconcile.RecordSurvivesRun` | src/cm/networkmanager/networkmanager.cpp:756-921 | so it stays in the database between any two points of a run without such a step, restarts included |
| `NetworkReconcile.LostPushRepeated` | src/cm/networkmanager/networkmanager.cpp:467-527 | so a push that was lost is repeated: the next undisturbed reconciliation of the node that can read the records settles the record, releases its requester, pushes the rule, or keeps the record waiting while no rule exists |
| `PendingConnections.CleanRemovesConfirmed` | src/cm/networkmanager/networkmanager.cpp:821-874 | exactly the confirmed records leave memory, with all their copies, and of these exactly the ones with a successful deletion leave the database, although the statement compares only part of the columns |
| `PendingConnections.ReloadRestores` | src/cm/networkmanager/networkmanager.cpp:788-819 | afterwards memory knows every stored record of the node and none that is not stored |
| `PendingConnections.ConfirmedExactly` | src/cm/networkmanager/networkmanager.cpp:832-853 | a record is confirmed exactly if it is of the node and the first report on its requester contains the rule that the walk finds for it |
| `PendingConnections.ReloadExactly` | src/cm/networkmanager/networkmanager.cpp:788-819 | behind what memory has, it gets one copy of each stored record of the node that it lacks, and nothing else |
| `PendingConnections.WrittenSelects` | src/cm/networkmanager/networkmanager.cpp:778-784 | the table gets exactly the records whose insert succeeds, in order |
| `PendingConnections.CollectExactly` | src/cm/networkmanager/networkmanager.cpp:890-909 | the rules collected for a requester are those of its resolvable records, one each, in the order of memory |
| `PendingConnections.CollectAddressed` | src/cm/networkmanager/networkmanager.cpp:902-904 | there is an update exactly for the requesters with a resolvable record, addressed to the node of the last |
| `PendingConnections.CollectPushes` | src/cm/networkmanager/networkmanager.cpp:875-921 | the rule of each resolvable record is in the update for its requester, addressed to the record's node |
| `PendingConnections.CollectSound` | src/cm/networkmanager/networkmanager.cpp:875-921 | an update holds no rule but those of resolvable records of that requester |
| `FirewallRules.SearchExact` | src/cm/networkmanager/networkmanager.cpp:588-621 | for every order of the maps: a rule points at a held instance of the item outside the requester's subnet that exposes port and protocol; if no instance of the item is in the subnet, a rule is found if and only if there is such an instance; the flag says whether any instance of the item exists |
| `FirewallRules.SearchFirst` | src/cm/networkmanager/networkmanager.cpp:588-621 | the first instance of the item in the walk that shares the requester's subnet or exposes port and protocol decides: in the first case there is no rule, in the second the rule from the requester's address to that instance's |
| `FirewallRules.SearchComplete` | src/cm/networkmanager/networkmanager.cpp:588-621 | the search finds a rule whenever a provider exists and no instance of the item shares the subnet |
| `FirewallRules.GetInstanceRule` | src/cm/networkmanager/networkmanager.cpp:588-621 | the loop with its early exits computes that search |
| `FirewallRules.PrepareClassifies` | src/cm/networkmanager/networkmanager.cpp:623-650 | each allowed connection becomes exactly one rule, one unresolved connection or nothing, in order; one malformed connection makes the call fail |
| `FirewallRules.PrepareExactly` | src/cm/networkmanager/networkmanager.cpp:623-650 | the rules are those of the connections that the walk finds one for, and the unresolved connections those to items that no instance is of, each in the order of the list |
| `FirewallRules.PrepareFirewallRules` | src/cm/networkmanager/networkmanager.cpp:623-650 | the loop computes that classification |
| `NetworkManagers.NetworkManager.Init` | src/cm/networkmanager/networkmanager.cpp:34-94 | succeeds exactly when all reads do, and then leaves the state that the restart lemmas are about; otherwise only networks that were read in full |
| `NetworkManagers.NetworkManager.ReadNetworks` | src/cm/networkmanager/networkmanager.cpp:46-77 | the nested reading loops build the networks that LoadRestricts and LoadRestores are about, or stop at the first read that fails |
| `NetworkManagers.NetworkManager.RemoveExistedNetworks` | src/cm/networkmanager/networkmanager.cpp:730-745 | the loop with its growing list computes the recovery that RecoverAllRestores is about |
| `NetworkManagers.NetworkManager.GetNodeNetworkParams` | src/cm/networkmanager/networkmanager.cpp:96-177 | new state and answer are those of the step in GetNodeAnswers, NewNodeExactly and NewNetworkExactly, errors included; the answer is what memory holds then, and a known node changes nothing |
| `NetworkManagers.NetworkManager.AllocateInstanceNetwork` | src/cm/networkmanager/networkmanager.cpp:179-343 | the locked section is the step in AllocateExactly, RefreshExactly and MoveExactly; then, only for a new instance, waiting records are resolved |
| `NetworkManagers.NetworkManager.RefreshInstance` | src/cm/networkmanager/networkmanager.cpp:213-255 | the branch for a known instance, saved names included |
| `NetworkManagers.NetworkManager.MigrateInstanceFromOtherNode` | src/cm/networkmanager/networkmanager.cpp:683-728 | the first holder on another node loses the instance; a storage failure stops half-way |
| `NetworkManagers.NetworkManager.InstallInstance` | src/cm/networkmanager/networkmanager.cpp:284-329 | the branch for a new instance with its rollbacks in reverse order, as in AllocateExactly |
| `NetworkManagers.NetworkManager.IsHostExist` | src/cm/networkmanager/networkmanager.cpp:652-661 | true exactly when some address has the name |
| `NetworkManagers.NetworkManager.ReleaseInstanceNetwork` | src/cm/networkmanager/networkmanager.cpp:345-401 | the step in ReleaseExactly; an unknown instance is no error, a known one needs its row removed and DNS restarted |
| `NetworkManagers.NetworkManager.ReleaseNodeNetwork` | src/cm/networkmanager/networkmanager.cpp:403-465 | the step in ReleaseNodeExactly and ReleaseNodeNames, for every storage call and the DNS restart that may fail |
| `NetworkManagers.NetworkManager.SyncNetworkState` | src/cm/networkmanager/networkmanager.cpp:467-527 | the loops compute the reconciliation that SyncDelivers, SyncExactly and SyncRecordsExactly are about; releases, reads and deletions that fail are passed over |
| `NetworkManagers.NetworkManager.StorePendingConnections` | src/cm/networkmanager/networkmanager.cpp:756-786 | memory gets all records, the table those whose insert succeeds |
| `NetworkManagers.NetworkManager.CleanConfirmedPendingConnections` | src/cm/networkmanager/networkmanager.cpp:821-874 | the loop computes the cleanup of CleanRemovesConfirmed and changes nothing else; a failed read ends it, a failed deletion does not |
| `NetworkManagers.NetworkManager.ReloadPendingConnections` | src/cm/networkmanager/networkmanager.cpp:788-819 | the loop computes the reload of ReloadRestores, unless the read fails |
| `NetworkManagers.NetworkManager.ResolvePendingConnections` | src/cm/networkmanager/networkmanager.cpp:875-921 | resolvable records leave memory only, and the updates are those of ResolveExactly and ResolvedUpdate |
| `NetworkDatabase.Database.AddNetwork` | src/cm/database/database.cpp:393-407 | refuses a taken key; a refused or failed statement changes nothing |
| `NetworkDatabase.Database.AddHost` | src/cm/database/database.cpp:409-423 | refuses a taken key and a missing network; a refused or failed statement changes nothing |
| `NetworkDatabase.Database.AddInstance` | src/cm/database/database.cpp:425-441 | refuses a taken key, a missing network and a missing node; a refused or failed statement changes nothing |
| `NetworkDatabase.Database.RemoveNetwork` | src/cm/database/database.cpp:521-538 | refuses a missing row and one that nodes or instances refer to; a refused or failed statement changes nothing |
| `NetworkDatabase.Database.RemoveHost` | src/cm/database/database.cpp:540-558 | refuses a missing row and one that instances refer to; a refused or failed statement changes nothing |
| `NetworkDatabase.Database.RemoveNetworkInstance` | src/cm/database/database.cpp:560-580 | refuses a missing row; a refused or failed statement changes nothing |
| `NetworkDatabase.Database.RemovePendingConnection` | src/cm/database/database.cpp:660-678 | removes every row that agrees in requester, target, port and protocol, or nothing when the storage fails |
| `NetworkDatabase.Database.RemovePendingConnections` | src/cm/database/database.cpp:680-695 | removes every row of the requester, or nothing when the storage fails |
| `NetworkDatabase.Database.AddPendingConnection` | src/cm/database/database.cpp:582-599 | rows have no key and may repeat; a failed insert changes nothing |
| `NetworkDatabase.Database.GetHosts` | src/cm/database/database.cpp:468-492 | the nodes of the network with their rows |
| `NetworkDatabase.Database.GetInstances` | src/cm/database/database.cpp:494-519 | the instances of the node in the network with their rows |
| `IpSubnets.RunConservesIff` | src/cm/networkmanager/ipsubnet.cpp:26-127 | at every point of any sequence of requests, releases, recoveries and address operations the pool together with the used subnets is the initial pool, each subnet once, if and only if no recovery gives a network a second subnet, which overwrites its first |
| `IpSubnets.NetworksShareNoAddress` | src/cm/networkmanager/ipsubnet.cpp:26-34 | two networks never have a common address |
| `IpSubnets.RequestedExactly` | src/cm/networkmanager/ipsubnet.cpp:26-34 | a network with a subnet keeps it and nothing changes; another gets one exactly if the routes could be read and some subnet of the pool meets none of them, and it is the first such, taken out of the pool with all its host addresses free |
| `IpSubnets.FirstUnrouted` | src/cm/networkmanager/ipsubnet.cpp:107-127 | the chosen position is the first subnet that meets no route; none is chosen only if all meet one |
| `IpSubnets.IpSubnet.Init` | src/cm/networkmanager/ipsubnet.cpp:21-24 | the pool is the fifteen private /16 subnets, without integer overflow on the way |
| `IpSubnets.IpSubnet.GetAvailableSubnet` | src/cm/networkmanager/ipsubnet.cpp:26-34 | the network's own subnet, or the first of the pool that meets no route, taken from the pool with all its host addresses free |
| `IpSubnets.IpSubnet.GetAvailableIP` | src/cm/networkmanager/ipsubnet.cpp:36-47 | takes the head of the free list; fails exactly without subnet or free address |
| `IpSubnets.IpSubnet.ReleaseIPToSubnet` | src/cm/networkmanager/ipsubnet.cpp:49-57 | appends to the free list, and ignores unknown networks |
| `IpSubnets.IpSubnet.ReleaseIPNetPool` | src/cm/networkmanager/ipsubnet.cpp:59-68 | the subnet goes to the end of the pool |
| `IpSubnets.IpSubnet.RemoveAllocatedSubnet` | src/cm/networkmanager/ipsubnet.cpp:70-88 | the subnet leaves the pool if it is there, and the listed addresses leave the network's free list in one pass or many |
| `IpSubnets.IpSubnet.FindUnusedIPSubnet` | src/cm/networkmanager/ipsubnet.cpp:107-127 | takes exactly the first unrouted subnet out of the pool, or fails and takes none |
| `NetPool.MakeNetPool` | src/cm/networkmanager/netpool.cpp:71-86 | the counting loop with 32-bit arithmetic builds the tiles of the masked base block; for a /1 split into /32 the count overflows and nothing is built |
| `NetPool.MakeNetPoolPartitions` | src/cm/networkmanager/netpool.cpp:71-86 | the result covers the base block exactly with disjoint blocks if and only if the prefixes differ by at most 30 |
| `NetPool.TilesPartition` | src/cm/networkmanager/netpool.cpp:78-84 | the tiles of any base block cover it exactly and are disjoint |
| `NetPool.GetNetPools` | src/cm/networkmanager/netpool.cpp:94-112 | fails exactly when some entry has an impossible size |
| `NetPool.NetPoolsValue` | src/cm/networkmanager/netpool.cpp:28-35 | the configured pool is 172.17.0.0/16 to 172.31.0.0/16 in ascending order |
| `NetPool.NetPoolsDisjoint` | src/cm/networkmanager/netpool.cpp:28-35 | these blocks share no address and lie in 172.16.0.0/12, the private range of section 3 of RFC 1918 |
| `NetPool.GenerateSubnetIPs` | src/cm/networkmanager/netpool.cpp:114-153 | for every prefix: an error from 31 on, otherwise all host addresses |
| `NetPool.CountHosts` | src/cm/networkmanager/netpool.cpp:141-150 | the loop ends, never takes its break and never wraps around |
| `NetPool.HostAddressesComplete` | src/cm/networkmanager/netpool.cpp:114-153 | the list is exactly network + 2 to broadcast - 1, ascending, 2^(32-p) - 3 addresses, all inside the subnet |
| `Cidr.CheckRouteOverlaps` | src/common/network/utils.cpp:146-170 | true exactly when some route's gateway lies in the block or its destination shares an address with it |
| `Cidr.OneAddressDecides` | src/common/network/utils.cpp:158-163 | testing the written address of each block against the other decides whether they share any address |
| `Cidr.NestedOrDisjoint` | src/common/network/utils.cpp:41-69 | of two blocks with a common address the wider contains the other's written address (section 3.1 of RFC 4632) |
| `Cidr.ContainsIsInterval` | src/common/network/utils.cpp:64-68 | comparing masked words is membership in the interval from network to broadcast address |
| `Cidr.MaskIsArithmetic` | src/cm/networkmanager/netpool.cpp:130-134 | on 32-bit words, base & mask and network | ~mask are the first and the last address, without overflow |
| `CloudProtocol.NoMessageLost` | src/cm/communication/communication.cpp:870-963 | in every interleaving an enqueued message that expects an ack is in exactly one of: queued (one copy), in flight, acknowledged, given up, withdrawn; its sends are tries + nacks while queued and one more in flight, tries at most 3, and it is given up after exactly 4 + nacks sends |
| `CloudProtocol.CheckExact` | src/cm/communication/communication.cpp:914-963 | for every message in flight before a timeout check over the whole map: if its time to answer has not run out it stays in flight as it was, unqueued, with its handler; otherwise it leaves flight, with fewer than three retries as exactly one copy at the end of the queue with the time of the check and one more try, else given up with its handler gone |
| `CloudProtocol.CheckAddsRepeats` | src/cm/communication/communication.cpp:914-963 | the old queue stays in front, only such copies come behind it, and nothing else comes in flight or gets a handler |
| `CloudProtocol.SendNeverDrops` | src/cm/communication/communication.cpp:905-909 | the insertion that does not overwrite never meets an entry, so the sent message is always recorded in flight |
| `CloudProtocol.HandlersTakenOnce` | src/cm/communication/communication.cpp:1582-1606 | a handler is taken for calling at most once, is never found after its message was given up or withdrawn, and is found until one of these happens |
| `CloudProtocol.RunsKeepInv` | src/cm/communication/communication.cpp:870-963 | the ledger of sends, nacks and handlers agrees with queue, flight and handler map at every point of every run |
| `CloudProtocol.FirstDue` | src/cm/communication/communication.cpp:875-891 | the first message in queue order whose time has come when the scan reads the clock for it, or none if there is none |
| `CloudProtocol.Communication.EnqueueMessage` | src/cm/communication/communication.cpp:1076-1091 | the message goes last; an existing handler is not replaced; with the ledger, the step of the run lemmas |
| `CloudProtocol.Communication.DequeueMessage` | src/cm/communication/communication.cpp:1093-1105 | all copies, the entry in flight and the handler go; with the ledger, the step of the run lemmas |
| `CloudProtocol.Communication.HandleSendQueue` | src/cm/communication/communication.cpp:870-912 | sends the first message that the scan finds due, with a clock reading for each, or leaves all as it was when sending fails; with the ledger, the step of the run lemmas |
| `CloudProtocol.Communication.HandleUnacknowledgedMessages` | src/cm/communication/communication.cpp:914-963 | exactly the messages whose time to answer has run out leave flight, re-queued or given up as in CheckExact, in any order of the map; with the ledger, the step of the run lemmas |
| `CloudProtocol.Communication.HandleAck` | src/cm/communication/communication.cpp:1107-1115 | the entry in flight goes; with the ledger, the step of the run lemmas |
| `CloudProtocol.Communication.HandleNack` | src/cm/communication/communication.cpp:1117-1144 | the entry goes back to the queue with a later time and its number of tries; with the ledger, the step of the run lemmas |
| `CloudProtocol.Communication.OnResponseReceived` | src/cm/communication/communication.cpp:1582-1606 | the handler is taken out under the mutex and returned for calling; with the ledger, the step of the run lemmas |
| `CloudProtocolDrain.StepDrains` | src/cm/communication/communication.cpp:891-959 | each send, expired timeout, matching ack and effective withdrawal lowers 2*(3-tries)+2 per queued and 2*(3-tries)+1 per flying message by at least one; a new message adds at most eight, a nack one |
| `CloudProtocolDrain.RunsDrain` | src/cm/communication/communication.cpp:891-959 | so between two points of a run the steps of progress are bounded by the measure and what was added: without new messages and nacks every run comes to rest |
| `CertOrder.BeforeIsLexicographic` | src/cm/communication/communication.cpp:1430-1460 | the chain of tests is the lexicographic order on (main node, node ID unless main, IAM) |
| `CertOrder.BeforeIsStrictWeakOrder` | src/cm/communication/communication.cpp:1430-1460 | irreflexive, asymmetric, transitive, and so is being equivalent |
| `CertOrder.SafeInstallOrder` | src/cm/communication/communication.cpp:1425-1463 | any stable sorted result is a permutation with each node's IAM certificates behind its others, main node certificates behind all others and the main IAM certificates last |
| `CertOrder.StableSortUnique` | src/cm/communication/communication.cpp:1430-1460 | two sorted lists with the same order among equals are the same, so the library's algorithm does not matter |
| `CertOrder.StableSortSorts` | src/cm/communication/communication.cpp:1430-1460 | for every list a sorted rearrangement that keeps the order among equals exists |
| `StreamTable.NoDanglingWriter` | src/cm/smcontroller/smcontroller.cpp:571-605 | in every interleaving of subscribe, cancel, exit and push, a writer in the table belongs to a call for that node that has not returned |
| `StreamTable.OlderExitHarmless` | src/cm/smcontroller/smcontroller.cpp:594-600 | the exit of a call leaves the stream of a newer subscription of its node, and of every other node, as it was, even when writer addresses are used again |
| `StreamTable.RunsKeepInv` | src/cm/smcontroller/smcontroller.cpp:571-605 | a node has a stream exactly while its newest call is under way, and it is that call's |
| `StreamTable.SMController.Register` | src/cm/smcontroller/smcontroller.cpp:580-583 | the newest subscription replaces the node's stream |
| `StreamTable.SMController.Unregister` | src/cm/smcontroller/smcontroller.cpp:594-600 | erases the stream only if it is this call's own |
| `StreamTable.SMController.OnPendingFirewallUpdate` | src/cm/smcontroller/smcontroller.cpp:638-660 | an update goes to the newest call of the node if that is under way and the update can be converted and written, and otherwise nowhere |
| `LogArchiver.LogArrives` | src/common/logging/archiver.cpp:24-92 | for every sequence of calls the pushed parts are numbered 1 to n of n with n at most one more than the limit, hold together exactly the accepted messages in order, each within the size limit or one single message; a log without content is sent as one empty part, and any other without the empty status |
| `LogArchiver.PartsFilled` | src/common/logging/archiver.cpp:30-41 | a part is closed only for a message that does not fit into it, and that message opens the next part |
| `LogArchiver.AddAllConserves` | src/common/logging/archiver.cpp:24-41 | the streams hold the accepted messages in order, one stream more than the part count |
| `LogArchiver.AddedKeepsInv` | src/common/logging/archiver.cpp:24-41 | a message is rejected exactly at the part limit, or when a full part cannot be closed, and then changes nothing; otherwise it stands behind all others |
| `LogArchiver.Archiver.AddLog` | src/common/logging/archiver.cpp:24-41 | the step of these lemmas, with AddLogPart in between when the part is full; a part that cannot be closed is an error |
| `LogArchiver.Archiver.SendLog` | src/common/logging/archiver.cpp:44-92 | pushes the parts of LogArrives in order, up to the first that does not fit into a message |

## Left out

- NetworkAddresses.MigrationBreaks: the move is modelled as written; the partition is proved for runs without it (`RunPartitionIff` gives the condition), not for a corrected step.
- NetworkReconcile.SyncDelivers: if an instance is released whose records cannot be deleted, what the rest of that reconciliation pushes is not stated; `RunAliveIff` says that its records are stranded.
- IpSubnets.IpSubnet.FindUnusedIPSubnet: route text that does not parse is not modelled; the kernel reports IPv4 routes.
- Cidr.CheckRouteOverlaps: addresses are 32-bit numbers, so the error for text that does not parse is not modelled; prefix 0, for which the mask is shifted by the full word (undefined in C++), is excluded, and the route list never reports it (line 99 of `utils.cpp`).
- NetPool.MakeNetPool: a base prefix of 0 is excluded for the same reason.
- NetPool.GetNetPools: a base prefix of 0 and a size over 32 bits, which shift by the full word or more, are excluded.
- Parsing of allowed connections and exposed ports (`String::Split`): the parsed parts are input, and None stands for malformed text.
- Fixed capacities of arrays and strings of the core library, which is not part of this model, except where a log part is copied into a message.
- Nested loops over networks, nodes and instances: one sequence of all held instances in arbitrary order, so orders are covered that do not keep the instances of one node together.
- CloudProtocol.Communication.HandleSendQueue: waiting, the running flag and the connection state are not modelled; a turn without connection is a failed send.
- CloudProtocol.NoMessageLost: transaction and correlation IDs are taken to be fresh, as the UUIDs they are made from, and a correlation ID comes with a handler, as its one sender does it. A message is a value, because the containers hold copies.
- The lifetime of the promise in `SendAndWaitResponse`: the handler map is modelled, the call outside the mutex is not.
- CertOrder.StableSortSorts: strings compare character by character; the library's sort is modelled by what it guarantees.
- StreamTable.SMController.Unregister: the waiting loop between the two sections is the step that cancels a call.
- LogArchiver.Archiver.AddLog: compression is the identity and sizes do not overflow; a part that cannot be closed keeps its content, and an exception from opening the next stream is not modelled.
- SQL text and row conversion, JSON and protobuf conversion, gRPC, WebSocket and TLS sessions, netlink, DNS files, application wiring, IAM clients, file server, downloader, launcher and process helpers: input and output, or long field-by-field code that would add only easy members.
