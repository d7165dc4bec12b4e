# Verified model of the sharded block emulator

The repository emulates a sharded blockchain whose accounts migrate between shards while
payments keep running. This project models four parts of it and proves what each is for.

**State trie** (`trie/`). `TrieOps.dfy`, `TrieHeap.dfy`, `TrieWalk.dfy`, `TrieDeleteNode.dfy` and
`TrieMain.dfy` hold the trie of mutable nodes; `TrieSpec.dfy` gives the tree a node stands
for, and the laws are about that tree and the map it holds. Keys are arbitrary byte strings.
On prefix-free keys, such as addresses of one length, any history of operations refines a map
and canonical form determines the shape. On other keys `Put` can index past the end of its key
and `Delete` can take out too much; both are characterised exactly by a *funnel*: a key below
which at least two stored keys lie, all going on with the same nibble.

**Account migration** (`chain/`, `pbft/`, the client). `Ledger.dfy` and `Leader.dfy` hold what
one committed block does to a shard's state tree and to its leader's memory, `Migration.dfy`
the system of all shards and the client as a step system, and the `Migration*` files the
invariant and what follows for every run. The source balance goes on changing while its
snapshot is live at the destination; the invariant says for each phase of each account which
copies and which messages exist, and what they add up to. A new map may list any accounts,
with any shards, even those where they live already; the results hold for every run in which no
account is sent where an announcement about it is still queued (`Patient`), and both ways in
which the client's gate falls short are stated exactly (`MigrationGate.dfy`, `MigrationGuards.dfy`).

**Partitioning** (`algorithm/`, `account/`, the client). `Graphs.dfy` and `Cuts.dfy` relate the
graph and its totals to the log of edges; `Clpa.dfy`, `Lbf.dfy` and `Metis.dfy` hold the three
users of the graph, `ClpaMoves.dfy` the moves of CLPA round by round, for any score formula,
`Addresses.dfy` the address table that records the default shard of an
account it is asked for, and `ClientMap.dfy` the way from pending payments to the map sent out.

**Hand-off, barrier, agreement** (`pbft/`, `core/`). `Handoff.dfy`, `HandoffPool.dfy` and
`Aggregation.dfy` hold what happens to pending transactions of a moving account, `Barrier.dfy`
the stop-mode arrival count, `Pbft.dfy` and `PbftProgress.dfy` the three-phase agreement.

Code that changes state is modelled by methods on classes, proved against functions on values;
the lemmas are about those functions. Messages between shards arrive in any order and at any
time: a message that is late is one that no block has taken yet. The half-lock mode is meant
throughout, with the bank, Fail and Cross_Chain options off. All senders, recipients and shard
numbers are arbitrary, and so are the number of shards, accounts, rounds, blocks and messages.

Where the code does less than its comments say, the model follows the code:

- `Put` of a new key that ends inside an extension has an example in the comments
  (trie/trie.go:204-205, trie/trie.go:210-211) but indexes past the end of the key (`TrieMap.PutUpdatesMap`,
  `TrieExamples.PutPanicsAtFork`). `Delete` below a branch with one child drops that whole child
  (`TrieMap.DeleteIsExact`, `TrieExamples.DeleteLosesAtFork`).
- A merged transaction whose first recipient is local and a later one is not is debited in full
  but not relayed (`LeaderLaws.MergedPaymentStranded`). A merged transaction takes the relay flag
  of its first part for all parts (`Aggregation.MergeIsExact`).
- The quorum comments count the node itself; the code counts votes of others only, so f silent
  nodes stop a shard (`Pbft.SilenceStops`), while fewer do not have to
  (`PbftProgress.FewSilentCanExecute`).
- The round gate does not wait for announcements queued at third shards. In a system of three
  shards or more, any account can be moved, come to rest with both counters at zero, and be moved
  again to a shard that then cannot process the first announcement
  (`MigrationGuards.GateOpensTooEarly`); a round goes smoothly if and only if it sends no account
  to a shard that still holds an announcement about it (`MigrationGuards.RoundIsSmooth`).
- The gate does not wait for the client to learn of moves either (pbft/client.go:433-446). An account
  listed with the shard where it lives is asked for by nobody and counted off by nobody, so the gate
  stays shut from then on; it can open again if and only if no such account was listed
  (`MigrationGate.GateCanOpen`).
- `AddVertex` of CLPA counts a vertex that is already there a second time
  (`Clpa.CLPAState.AddVertex`). Only a caller from outside could do that: `AddEdge`, the one caller
  in the repository, calls it for new vertices only (algorithm/partition_CLPA.go:37-42). After a move,
  totals are exact only for vertices without self-loops (`Clpa.UpdateIsRecount`), which the client
  never adds (pbft/client.go:496-498).

## Model

| member | source | states |
|---|---|---|
| Nibbles.FromBytes | trie/trie_nibbles.go:40-46 | the loop gives the expansion of the key |
| Nibbles.ExpandAt | trie/trie_nibbles.go:40-46 | two nibbles for each byte, in order, the high one first |
| Nibbles.ToBytes | trie/trie_nibbles.go:82-91 | packs pairs of nibbles back into bytes |
| Nibbles.PackExpand | trie/trie_nibbles.go:33-46 | packing undoes expanding |
| Nibbles.ExpandInjective | trie/trie_nibbles.go:40-46 | different byte keys have different nibble keys, so the nibble map stands for the byte map |
| Nibbles.PrefixMatchedLen | trie/trie_nibbles.go:96-108 | the length of the longest common prefix: equal up to it, different after it |
| SlotIndex.SortedIsOk | trie/trie_branch.go:17-43 | slot numbers that rank the present nibbles are a bijection between nibbles and slots |
| SlotIndex.InsertMoves | trie/trie_branch.go:24-35 | sorted insertion keeps the bijection, gives the new nibble the new child and every other nibble its old one |
| SlotIndex.AppendMoves | trie/trie.go:188-192 | appending at the end keeps the bijection although slots are no longer sorted, gives the new nibble the new child and every other nibble its old one |
| SlotIndex.RemoveMoves | trie/trie_node.go:124-130 | cutting a slot out and counting the later ones down keeps the bijection and every other child |
| TrieHeap.Node.SetBranch | trie/trie_branch.go:17-43 | the shifting loop and the copy do to the node's fields what the insertion on values does |
| TrieLaws.PutCanonical | trie/trie.go:105-250 | Put keeps canonical form: no empty or chained extension, extensions point to branches, branches hold two entries |
| TrieLaws.PutFind | trie/trie.go:105-250 | after Put the key reads the new value and every other key what it read before |
| TrieDelete.DeleteFind | trie/trie_node.go:47-193 | what every key reads after Delete, including where it cuts too much |
| TrieFunnel.PutFailsInExt | trie/trie.go:201-207 | Put fails exactly when the key ends inside an extension |
| TrieFunnel.FunnelEnds | trie/trie.go:201-207 | a funnel in the contents is a key that ends inside an extension, whatever the shape |
| TrieFunnel.FunnelIsCut | trie/trie_node.go:113-119 | every stored funnel above a deleted key is a place where Delete cuts |
| TrieMap.PutUpdatesMap | trie/trie.go:105-250 | Put panics if and only if the key is new and a funnel; otherwise the map is updated at the key |
| TrieMap.DeleteRemoves | trie/trie_node.go:47-193 | Delete of a present key restores canonical form and leaves the old map without the key and without what lies below a funnel above it |
| TrieMap.DeleteIsExact | trie/trie_node.go:113-119 | Delete takes out just the key if and only if no stored key above it is a funnel |
| TrieMap.PrefixFreeIsSafe | trie/trie.go:105-260 | on prefix-free keys Put never panics and Put and Delete are exactly map update and map removal |
| TrieMap.HistoryRefinesMap | trie/trie.go:105-260 | any history of Put and Delete over prefix-free keys stands for the map the same history leaves |
| TrieMap.HistoriesAgree | trie/trie.go:105-260 | two histories that leave the same map leave the same tree up to slot order |
| TrieShape.ShapeIsUnique | trie/trie_node.go:47-193 | canonical tries with the same contents have the same shape |
| TrieMap.ContentsDetermineShape | trie/trie_node.go:47-193 | the same for roots, the empty trie included |
| TrieDeleteNode.DeleteNode | trie/trie_node.go:47-193 | the in-place deletion of nodes does what Delete does to the tree, reusing only nodes of the trie |
| TrieMain.GetBelow | trie/trie.go:49-98 | the walk down the nodes finds what the tree holds under the key, and ends |
| TrieMain.PutBelow | trie/trie.go:113-248 | the walk with its in-place rewriting of one node does to the tree what Put does, or changes nothing |
| TrieMain.Trie.Get | trie/trie.go:49-98 | reads the map |
| TrieMain.Trie.Put | trie/trie.go:105-250 | updates the map at the key, or panics for a new key at a funnel with the trie unchanged |
| TrieMain.Trie.Delete | trie/trie.go:252-260 | reports an absent key; otherwise removes the key, and what lies below a funnel above it |
| TrieExamples.PutPanicsAtFork | trie/trie.go:207 | two keys that continue the new one with the same nibble make Put panic |
| TrieExamples.DeleteLosesAtFork | trie/trie_node.go:113-119 | with the short key stored too, deleting one longer key loses the other |
| TrieExamples.SlotsDependOnHistory | trie/trie.go:186-191 | the same three byte keys put in another order sit in different slots, so the shape is unique only up to slot order |
| Ledger.StateTree.Update | chain/blockchain.go:354-642 | the five passes over the state tree, loop by loop, are ApplyBlock, and the recorded balances are those after the payments |
| LedgerLaws.BlockAt | chain/blockchain.go:362-642 | what a whole block does to one account: arrival replaces it, payments count where it lives, departure and announcement mark it, late changes come last |
| Leader.Classify | pbft/pbftsingle.go:76-145 | the scan over recipients, listed in the address table or not, commits if one is local, relays by the first foreign one it meets, and sets the relay flag of what it commits; looking up changes no answer |
| Leader.ShardLeader.Commit | pbft/pbftsingle.go:32-145 | one committed block updates tree, address table, own accounts and balance memory as CommitNode and sends and reports what CommitOut says; CommitKeepsTable, CommitSorts, ChangesGoAlong and the migration results say what these are |
| Leader.ShardLeader.SweepAnns | pbft/handleanns.go:42-112 | announcements move the table entries and take the own accounts out, recording where to |
| Leader.ShardLeader.GatherGains | pbft/handleanns.go:367-441 | the loop collects the balance changes, forgets the recorded balances and counts the unchanged accounts as CollectGains; ChangesGoAlong says what the changes are and where they go |
| LeaderLaws.CommitKeepsTable | chain/blockchain.go:147-158 | address table, own accounts and stored Location agree after every block |
| LeaderLaws.SinglePaymentCreditedOrRelayed | pbft/pbftsingle.go:71-145 | a fresh payment to one recipient is credited in the state or relayed, never both and never neither |
| LeaderLaws.CommitSorts | pbft/pbftsingle.go:71-145 | in the state and not in the table: a commit reports exactly the transactions with a recipient that lives here once the arrivals are in, in block order, and sends on exactly those whose first recipient (for relayed ones, first two) live elsewhere |
| LeaderLaws.PaymentsReportedOrSent | pbft/pbftsingle.go:71-145 | each fresh payment to one recipient is in exactly one of the reported list and the relay list, as often as it is in the block |
| LeaderLaws.RelayedPaymentStranded | pbft/pbftsingle.go:130-143 | a relayed transaction with a recipient elsewhere strands if and only if it has one recipient or one of its first two lives here |
| LeaderLaws.MergedPaymentStranded | pbft/pbftsingle.go:76-145 | a merged fresh transaction strands payments if and only if its first recipient is local and a later one is not; its sender loses exactly what is credited here plus what goes to accounts elsewhere |
| LeaderLaws.StrandedExample | pbft/pbftsingle.go:76-145 | a payment of 7 that is debited and goes nowhere |
| PaymentLaws.PaymentsBalance | chain/blockchain.go:498-564 | over the payments of a block, an account's live copy and its relayed payments change together as the ledger does |
| MigrationInv.BlockKind | chain/blockchain.go:354-642 | a block holds at most one kind of migration message per account, the one its phase allows |
| MigrationCommit.CommitIsReady | pbft/handleanns.go:395-398 | a block made of pooled messages meets everything a commit demands: the recorded balance is there for every account handed over |
| MigrationCommit.CommitMoves | pbft/pbftsingle.go:32-145 | the one thing that happens to an account in a block, by phase |
| MigrationCommit.ChangesGoAlong | pbft/handleanns.go:367-434 | a balance change goes out for exactly those accounts handed over whose balance moved since it was recorded, once each, with that difference, to the shard the announcement names |
| MigrationCommit.CommitKeepsBooks | chain/blockchain.go:354-642 | after any block, copies, late changes and relayed payments of every account still add up to its ledger entry |
| MigrationPools.CommitMig2s | pbft/pbft.go:1188-1217 | the incoming-account messages waiting are exactly those of departed accounts, with the recorded balance |
| MigrationPools.CommitHands | pbft/handleanns.go:367-429 | the hand-over messages waiting are exactly those of retired accounts, with what they gained |
| MigrationPools.CommitAnns | pbft/pbft.go:1294-1318 | announcements wait only at shards where the account neither lives nor is about to arrive, except the single one that has to retire an old copy, which does wait there |
| MigrationPools.CommitCounters | pbft/client.go:352-368 | settlements reported by a block are exactly the accounts that settle in it |
| MigrationPools.CommitKeepsInv | pbft/pbftsingle.go:32-145 | every committed block keeps the whole invariant |
| MigrationSteps.DeliverKeepsInv | pbft/pbft.go:1704-1767 | so does the arrival of changes and pending lists |
| MigrationSteps.MapKeepsInv | pbft/pbft.go:1823-1834 | so does any new map that sends no account where an announcement about it is still queued |
| MigrationRuns.RunsRefineLedger | chain/blockchain.go:354-642 | single-ledger refinement: in every state of every run, each account's live copies, late change and relayed payments equal its balance in the one ledger, and the late change is the one its hand-over message or waiting TXns carries; only changes addressed to the shard of the hand-over count |
| MigrationRuns.RunsConserve | chain/blockchain.go:354-642 | over every run all accounts together are worth what they were worth at the start |
| MigrationRuns.GateIsSafe | pbft/client.go:418-423 | the client's counters never go below zero, and both are zero only when no round is being prepared and every account is at rest: no request, arrival, hand-over or late change of it is left, and announcements about it wait only at shards where it does not live |
| MigrationRuns.CountersAreExact | pbft/client.go:602-620 | each counter is the accounts not yet settled, or not yet arrived, plus those reported and not counted off, plus those a map listed where they already lived |
| MigrationRuns.RunsNeverStick | pbft/handleanns.go:395-398 | no state reached without sending an account to old news of it has a block of pooled messages that a leader fails on |
| MigrationProgress.OnwardAdvances | chain/blockchain.go:354-642 | for every account on its way an event is enabled that brings it one phase closer to its destination: its message is waiting where it is needed |
| MigrationProgress.RunsCanFinish | pbft/handleanns.go:367-441 | from every state of every run, any account can be brought to rest at its destination in at most five events |
| MigrationGate.GateCanOpen | pbft/client.go:352-423 | from every state of every run outside the collecting time, the gate can open again if and only if no account was listed where it already lived |
| MigrationGate.MapLetsGateOpen | pbft/client.go:571-577 | a new map leaves the gate able to open again if and only if every account it lists goes to another shard |
| MigrationGuards.PaymentIsExact | chain/blockchain.go:498-564 | executing a payment keeps the books of all accounts if and only if it runs where the sender, or for a relayed one the recipient, lives, or the value is 0 |
| MigrationGuards.NewsNeedsMemory | pbft/handleanns.go:395-398 | an announcement can be processed if and only if the account does not live here or its departure balance is remembered |
| MigrationGuards.StaleNewsStops | pbft/handleanns.go:395-398 | an old announcement of an account that has meanwhile arrived cannot be processed |
| MigrationGuards.RoundIsSmooth | pbft/client.go:418-423 | for every map in every state of every run, all fitting blocks stay committable through the round if and only if no listed account goes to a shard whose pool holds an announcement about it |
| MigrationGuards.GateOpensTooEarly | pbft/client.go:418-423 | from every start with three shards or more there is a run with both counters at zero, and a next round in which a shard has a fitting block it cannot commit |
| MigrationGuards.ThreeShardsFail | pbft/client.go:418-423 | the run for one account in three shards |
| Graphs.Graph.AddVertex | algorithm/graph.go:25-34 | a new vertex takes the next number; numbering, lists and weights stay in step |
| Graphs.Graph.AddEdge | algorithm/graph.go:37-55 | an edge extends the log; the second end lists the first, and the first the second if the edge is two-way; numbers stay a bijection, lists are the log's neighbours in order, weights their multiplicities |
| Cuts.AllEntries | algorithm/partition_CLPA.go:72-86 | over all lists a crossing edge counts once for each of its shards and an inner edge twice, so both halvings are exact |
| Cuts.ShardSums | algorithm/partition_CLPA.go:88-96 | over all shards crossing edges count twice, and the weights sum up to the edges plus the crossing edges |
| Cuts.MoveIsRecount | algorithm/partition_CLPA.go:106-124 | the per-neighbour updates of a move amount to a recount, short by the self-loops of the moved vertex |
| Clpa.CLPAState.AddVertex | algorithm/partition_CLPA.go:23-32 | the shard sizes stay right if and only if the vertex is new; a new vertex gets its default shard recorded in the address table and starts where the table lists it |
| Clpa.CLPAState.AddEdge | algorithm/partition_CLPA.go:35-46 | new ends start at their shard, the sizes stay right, and every vertex goes on starting where the address table lists it |
| Clpa.CLPAState.ComputeEdges2Shard | algorithm/partition_CLPA.go:62-104 | in any order of the map, gives each shard's weight, the crossing edges, and the least weight capped at the largest 32-bit number |
| Clpa.CLPAState.ComputeEdges2Shard1 | algorithm/partition_CLPA.go:106-132 | the loop over the neighbours, the least weight, and weights minus crossings unchanged on any graph |
| Clpa.UpdateIsRecount | algorithm/partition_CLPA.go:106-124 | after a move the updated totals equal a full recount if and only if the vertex has no self-loop |
| Clpa.MinAgrees | algorithm/partition_CLPA.go:99-103 | the least weight after a move equals that of a recount if and only if it fits 32 bits |
| Clpa.SizesSum | algorithm/partition_CLPA.go:190-192 | sizes that are right sum up to the number of vertices |
| Clpa.WeightsSum | algorithm/partition_CLPA.go:88-96 | exact weights sum up to the edges plus the crossing edges |
| Clpa.CLPAState.Move | algorithm/partition_CLPA.go:185-197 | a move changes the partition at one vertex, takes it over from one shard's size to the other's, updates totals by its neighbours, and keeps totals and sizes exact and every inhabited shard inhabited |
| Clpa.CLPAState.GetShardScore | algorithm/partition_CLPA.go:145-157 | counts the edges of the vertex into the shard and gives the formula that, the degree, the shard's weight and the least weight |
| Clpa.CLPAState.BestShard | algorithm/partition_CLPA.go:171-184 | scoring each neighbouring shard once only, the loop finds the choice of ChoiceIsBest |
| Clpa.CLPAState.Visit | algorithm/partition_CLPA.go:167-199 | the body of the loop does to everything the algorithm keeps what Visited says |
| ClpaMoves.ChoiceIsBest | algorithm/partition_CLPA.go:171-184 | a vertex chooses a shard if and only if it is that of the first neighbour with the greatest score above -9999, or its own where no score is |
| ClpaMoves.VisitMoves | algorithm/partition_CLPA.go:167-199 | a visit puts a vertex into another shard if and only if that is its choice, its own shard holds more than it, and it has moved less than 1000 times; otherwise nothing changes |
| ClpaMoves.RoundRests | algorithm/partition_CLPA.go:166-200 | a round changes nothing if and only if no vertex would leave its shard in the state before the round |
| ClpaMoves.RoundsRest | algorithm/partition_CLPA.go:165-202 | once a round changes nothing, no later one does |
| ClpaMoves.RoundsLimit | algorithm/partition_CLPA.go:167-169 | over any number of rounds no vertex moves more than 1000 times |
| Clpa.CLPAState.CLPA_Partition | algorithm/partition_CLPA.go:160-208 | for any score formula the loops leave what the given number of rounds, each visiting every vertex in order, makes of a recount; totals and sizes exact throughout, shards in range, no shard loses its last vertex, each moved vertex listed once with its final shard |
| Addresses.AddressTable.Addr2Shard | account/account_state.go:101-122 | answers with the entry or the default shard, records the answer, and keeps every answer |
| Addresses.AnswersStay | account/account_state.go:101-122 | asking for any accounts in any order changes no answer and leaves exactly their entries |
| ClientMap.FilterMoves | pbft/client.go:504-510 | keeps the listed accounts whose shard differs from the table, each once |
| ClientMap.CLPAMap | pbft/client.go:486-511 | from the pending payments to the map sent out: exactly the accounts that end in another shard than the table gave, or would have given, before, each once with its final shard |
| ClientMap.LBFMap | pbft/client.go:513-541 | the same for LBF on any graph |
| Metis.WeightsAreSymmetric | algorithm/graph.go:48-54 | weights of a two-way graph are symmetric |
| Metis.PairsParity | algorithm/partition_METIS.go:65-72 | the number of weight entries has the parity of the number of self-looped vertices |
| Metis.CountEdges | algorithm/partition_METIS.go:61-72 | the writer panics if and only if an odd number of vertices has a self-loop; otherwise it writes half the entries |
| Metis.NoLoopsNoPanic | algorithm/partition_METIS.go:68-70 | without self-loops the panic is unreachable |
| Lbf.LoadsSum | algorithm/partition_LBF.go:43-49 | the loads of all shards sum up to the list entries of the graph |
| Lbf.LoadsBalanced | algorithm/partition_LBF.go:69-85 | shards filled to the average leave the last one no more than the average |
| Lbf.LBFState.ComputeAvgWeight | algorithm/partition_LBF.go:43-49 | the average times the number of shards is the total load |
| Lbf.LBFState.FillShard | algorithm/partition_LBF.go:69-82 | for any random choices, a shard ends full or the vertices run out, less than one vertex above the average |
| Lbf.LBFState.LBF_Partition | algorithm/partition_LBF.go:59-93 | each vertex gets one shard, the load bounds hold, and the result lists exactly the accounts that change shard |
| Aggregation.Mtx2totx1 | core/transaction.go:107-123 | one transaction per recipient, in order, without the flags |
| Aggregation.SplitMerges | core/transaction.go:107-123 | splitting what was merged gives back the same payment sequence |
| Aggregation.MergeSplits | core/transaction.go:107-123 | merging what was split gives back the transaction up to its relay flag |
| Aggregation.MergeMeans | pbft/pbft.go:1610-1628 | executing the merged transaction differs from the originals only at the moving account, by the misread payments |
| Aggregation.MergeIsExact | pbft/pbft.go:1610-1628 | merging preserves meaning if and only if the payments whose relay flag differs from the first one's sum to 0; always for one kind |
| Aggregation.SplitIsExact | core/transaction.go:107-123 | splitting preserves meaning if and only if the transaction is fresh or its values sum to 0 |
| Aggregation.MixedExample | pbft/pbft.go:1610-1628 | a relayed payment merged behind a fresh one is paid twice |
| Handoff.SweptRight | pbft/handleanns.go:224-246 | of what stays, no fresh transaction has a leaving sender and no relayed one a leaving recipient; what goes with an account is fresh and sent by it, or relayed with it as the first leaving recipient |
| Handoff.SweepSorts | pbft/handleanns.go:220-254 | the two lists of the sweep are what stays because it goes with nobody, and what goes with each account, in queue order |
| Handoff.SentIsOne | pbft/pbft.go:1610-1628 | at most one transaction travels for an account: all payments in their order, under the sender and flag of the first |
| Handoff.SweepConserves | pbft/handleanns.go:220-254 | every payment of the queue stays in it or goes with exactly one leaving account |
| Handoff.HandoffConserves | pbft/handleanns.go:192-306 | the payments of queue and parked pools before are those of the remaining queue and of what is sent |
| Handoff.Enqueue | pbft/pbft.go:1717-1743 | at the destination every payment received is queued |
| Handoff.DeliverAll | pbft/pbft.go:1717-1743 | each destination queues exactly the payments of the accounts that go there, and all destinations together those of all accounts |
| Handoff.HandOver | pbft/handleanns.go:192-306 | from the source to all destinations: what stays is what goes with nobody, each destination queues what was parked for its accounts and what goes with them, and no payment is lost or doubled on the way |
| HandoffPool.OwnerOf | pbft/handleanns.go:224-244 | the loop answers with an account if and only if it leaves and the transaction is fresh with it as sender, or relayed with it as the first leaving recipient |
| HandoffPool.Sweep | pbft/handleanns.go:220-254 | the queue is compacted in place to what goes with nobody, in order, and each leaving account collects what goes with it, in order |
| HandoffPool.MergePending | pbft/pbft.go:1610-1628 | the in-place merge of distinct transaction objects gives the one transaction of SentIsOne |
| HandoffPool.HandOff | pbft/handleanns.go:192-306 | the whole hand-off leaves what goes with nobody, and sends for each leaving account one transaction made of what was parked before, what goes with it, and what was parked after |
| Barrier.ProposedOnceComplete | pbft/PBFTforMigrate.go:334-351 | under any interleaving, incoming accounts are proposed exactly once, when the change is committed and all have arrived |
| Barrier.ListedOnce | pbft/PBFTforMigrate.go:336-342 | each account is in that proposal once, with its balance |
| Barrier.FillOut | pbft/PBFTforMigrate.go:251-262 | each shard to which an account goes gets one message, not empty, with exactly the accounts that go there; entries made before stay, new ones have balance 0 |
| Barrier.SourcesMakeEpoch | pbft/PBFTforMigrate.go:251-262 | messages made by the sources from their own accounts and the new map, in any order, are an epoch as the barrier needs it |
| Barrier.HeardAllProposes | pbft/PBFTforMigrate.go:326-353 | a shard that expects accounts proposes them exactly once, when it has committed the change and heard every source that has one for it |
| Barrier.EmptyMessageProposes | pbft/PBFTforMigrate.go:347-350 | a message without accounts would set off a proposal at once |
| Barrier.Receiver.HandleBalancesAndPendings | pbft/PBFTforMigrate.go:326-353 | the loop over a message, in any order, counts down and collects, and proposes at zero |
| Barrier.Receiver.CommitEpochChange | pbft/pbftsingle.go:399-426 | the loop over the new map counts the expected accounts up, and proposes at zero if there are any |
| Pbft.Node.HandlePrePrepare | pbft/pbft.go:300-342 | a vote goes out if and only if the sequence number is the own one, and then the block is held; otherwise nothing changes |
| Pbft.Node.HandlePrepare | pbft/pbft.go:345-399 | counts prepares for a block it holds and the own sequence number only, and commits once, at 2f |
| Pbft.Node.HandleCommit | pbft/pbft.go:404-447 | counts commits and executes a block it holds, once, at more than 2f |
| Pbft.NextKeepsInv | pbft/pbft.go:265-447 | every step keeps: executed blocks are the first proposals, a node holds at most one proposal more; each prepare of a correct node is for the proposal of its sequence number, which the node holds; each commit of a correct node is for a block it holds and for a number not beyond its own |
| Pbft.ExecutedIsPrefix | pbft/pbft.go:449-460 | in every run each correct node has executed a prefix of the proposals, no digest twice |
| Pbft.NodesAgree | pbft/pbft.go:449-460 | of any two correct nodes one is behind the other |
| Pbft.ExecutedIsCommitted | pbft/pbft.go:423-431 | behind each executed block stand commits of at least f + 1 correct nodes that hold it and saw 2f prepares |
| Pbft.SilenceStops | pbft/pbft.go:970-978 | a node's own commit is not counted, so if f or more other nodes send none, it executes nothing in any run |
| Pbft.MissedBlockStops | pbft/pbft.go:423-441 | a node that hears more than 2f commits for a block it has not got marks it as replied, and without catching up it never executes that block nor one proposed after it |
| PbftProgress.EnoughPrepares | pbft/pbft.go:366-395 | with fewer than f silent nodes the prepares of the others make every correct node send its commit |
| PbftProgress.FewSilentCanExecute | pbft/pbft.go:423-449 | with fewer than f silent nodes there is a run in which any given correct node executes a block |

## Left out

- Storage, Merkle proofs, hashing and encodings: the account state is a map; digests are names that do not collide.
- Logs, timers, TCP and JSON; time stamps and statistics marks on transactions (RecLock, HalfLock, Success).
- Nil values in the trie: a present value is never nil; Put of a nil value is not modelled.
- Occupied SetBranch, RemoveBranch: never reached from Put and Delete.
- Slice capacity and aliasing in the trie: key slices are values.
- Full-lock mode, the bank, Fail, Cross_Chain and the Relay_Lock flag.
- FetchTxs2Pack, LockTX, SendOut, GenerateBlock: which transactions enter a block is given, not chosen.
- Relay fan-out of transactions with several recipients (TryRelay): the ledger model has single payments; merging is covered by Aggregation and by the stranded payments of LeaderLaws.
- Routing of a relayed payment to its shard, and its second hop after a migration: a relayed payment is executed where its recipient lives, and MigrationGuards.PaymentIsExact says what happens otherwise.
- Balances that would go below zero are kept as they are, as the code does.
- Balances in stop mode: SendOut gives 0 for accounts without pending transactions; the barrier counts accounts only.
- Leader.Classify: does not model the lookup of the sender, whose answer is dropped; it would list a sender that no table has.
- Pbft.Node.HandleCommit: does not model the request for a block that the node has not got; it marks the digest as replied, and Pbft.MissedBlockStops says where that leaves a node whose request goes unanswered.
- A new map reaches all shards at once. Within its round a late one makes no difference, since each account moves once; one that is still on its way when the next round starts is not modelled.
- Announcements that reach the client while it works on a map; its table changes between rounds only.
- Overlap of a new epoch with the reset of the incoming pool; Barrier is about one epoch.
- HandoffPool.MergePending: does not model a transaction object that is queued twice, which the merge would read while it grows.
- The floating-point arithmetic of the score of CLPA: the formula is any function of the four numbers it reads, a score that is not a number counting as one of -9999.
- The rounding of the sums of LBF, which are exact here; Pagerank, Allocate and the METIS program itself.
- Block catch-up and a faulty primary in the agreement; votes carry their true sender, and pre-prepares come from node 0 only.
- EpochChange and AccState rounds of the agreement: their sequence numbers advance like those of blocks.
